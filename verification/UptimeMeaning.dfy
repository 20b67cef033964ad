/**
 * What the uptime percentages, the trailing week and the calendar of the uptime read mean, said
 * over counts of checks and instants.
 */
module UptimeMeaning {
  import opened Types
  import opened Stats
  import opened Uptime
  import opened UptimeShape

  // ---------- Percentages ----------

  function SumReals(xs: seq<real>): real { if xs == [] then 0.0 else SumReals(xs[..|xs| - 1]) + xs[|xs| - 1] }

  predicate Distinct(regions: seq<Region>) {
    forall i, j :: 0 <= i < j < |regions| ==> regions[i] != regions[j]
  }

  /** A region's percentage p of available checks. */
  predicate IsShare(p: real, a: Tally) { a.total > 0 && p * a.total as real == 100.0 * a.available as real }

  lemma Steeper(p: real, q: real, t: real)
    requires p > q && t > 0.0
    ensures p * t > q * t
  {
    assert (p - q) * t > 0.0;
  }

  lemma QuotientTimes(x: real, t: real)
    requires t > 0.0
    ensures x / t * 100.0 * t == 100.0 * x
  {
    var q := x / t;
    assert q * t == x;
    assert q * 100.0 * t == 100.0 * (q * t);
  }

  lemma ShareExact(p: real, a: Tally)
    requires a.total > 0
    ensures p == Share(a) <==> IsShare(p, a)
  {
    var t := a.total as real;
    QuotientTimes(a.available as real, t);
    if p > Share(a) { Steeper(p, Share(a), t); }
    if p < Share(a) { Steeper(Share(a), p, t); }
  }

  /** The regions of a table of reporting regions, listed in any order. */
  ghost predicate Lists(regions: seq<Region>, m: map<Region, Tally>) {
    && Distinct(regions) && (forall r :: r in regions <==> r in m) && (forall r :: r in m ==> m[r].total > 0)
  }

  lemma ListsLess(regions: seq<Region>, m: map<Region, Tally>)
    requires Lists(regions, m) && regions != []
    ensures var n := |regions| - 1; var last := regions[n];
      last in m && Lists(regions[..n], m - {last}) && |m| == |m - {last}| + 1
  {
    var n := |regions| - 1;
    var last, init := regions[n], regions[..n];
    assert last in regions;
    var rest := m - {last};
    assert m.Keys == rest.Keys + {last};
    forall r ensures r in init <==> r in rest {
      if r in init {
        var i :| 0 <= i < n && init[i] == r;
        assert regions[i] == r;
      } else {
        assert r in rest ==> r in regions;
      }
    }
  }

  lemma {:induction false} ListSize(regions: seq<Region>, m: map<Region, Tally>)
    requires Lists(regions, m)
    ensures |m| == |regions|
    decreases |regions|
  {
    if regions == [] {
      assert m == map[];
    } else {
      ListsLess(regions, m);
      ListSize(regions[..|regions| - 1], m - {regions[|regions| - 1]});
    }
  }

  lemma TakenShare(m: map<Region, Tally>, last: Region, share: real)
    requires (forall k :: k in m ==> m[k].total > 0) && last in m && IsShare(share, m[last])
    ensures ShareSum(m) == ShareSum(m - {last}) + share
  {
    ShareSumTakes(m, last);
    ShareExact(share, m[last]);
  }

  /** Each share is its region's. */
  predicate AreShares(shares: seq<real>, regions: seq<Region>, m: map<Region, Tally>) {
    |regions| == |shares| && forall i :: 0 <= i < |regions| ==> regions[i] in m && IsShare(shares[i], m[regions[i]])
  }

  lemma AreSharesLess(shares: seq<real>, regions: seq<Region>, m: map<Region, Tally>)
    requires AreShares(shares, regions, m) && regions != [] && Distinct(regions)
    ensures var n := |regions| - 1;
      AreShares(shares[..n], regions[..n], m - {regions[n]}) && IsShare(shares[n], m[regions[n]])
  {
  }

  lemma {:induction false} ShareSumListed(m: map<Region, Tally>, regions: seq<Region>, shares: seq<real>)
    requires Lists(regions, m) && AreShares(shares, regions, m)
    ensures ShareSum(m) == SumReals(shares)
    decreases |regions|
  {
    if regions == [] {
      assert m == map[];
    } else {
      var n := |regions| - 1;
      ListsLess(regions, m);
      AreSharesLess(shares, regions, m);
      ShareSumListed(m - {regions[n]}, regions[..n], shares[..n]);
      TakenShare(m, regions[n], shares[n]);
    }
  }

  /** The percentage of a table is the mean of the reporting regions' percentages, listed in any order. */
  lemma PercentExact(m: map<Region, Tally>, regions: seq<Region>, shares: seq<real>)
    requires Distinct(regions) && (forall r :: r in regions <==> r in m && m[r].total > 0)
    requires AreShares(shares, regions, m)
    ensures Percent(m) == Mean(SumReals(shares), |regions|)
  {
    var reporting := Reporting(m);
    assert AreShares(shares, regions, reporting);
    ListSize(regions, reporting);
    ShareSumListed(reporting, regions, shares);
  }

  /** No mean of nothing; otherwise n times the mean is the sum. */
  lemma MeanTimes(sum: real, n: nat)
    ensures Mean(sum, n).None? <==> n == 0
    ensures n > 0 ==> Mean(sum, n).value * n as real == sum
  {
  }

  lemma ShareRange(a: Tally)
    requires 0 < a.total && a.available <= a.total
    ensures 0.0 <= Share(a) <= 100.0
    ensures (Share(a) == 100.0 <==> a.available == a.total) && (Share(a) == 0.0 <==> a.available == 0)
  {
    ShareExact(Share(a), a);
    var p, t := Share(a), a.total as real;
    if p > 100.0 { Steeper(p, 100.0, t); }
    if p < 0.0 { Steeper(0.0, p, t); }
  }

  predicate Full(m: map<Region, Tally>) { forall r :: r in m && m[r].total > 0 ==> m[r].available == m[r].total }
  predicate Dead(m: map<Region, Tally>) { forall r :: r in m && m[r].total > 0 ==> m[r].available == 0 }

  lemma {:induction false} ShareSumRange(m: map<Region, Tally>)
    requires forall r :: r in m ==> 0 < m[r].total && m[r].available <= m[r].total
    ensures 0.0 <= ShareSum(m) <= 100.0 * |m| as real
    ensures (ShareSum(m) == 100.0 * |m| as real <==> Full(m)) && (ShareSum(m) == 0.0 <==> Dead(m))
    decreases |m|
  {
    if m != map[] {
      var r :| r in m;
      var rest := m - {r};
      ShareSumRange(rest);
      ShareSumTakes(m, r);
      ShareRange(m[r]);
      assert m.Keys == rest.Keys + {r};
      assert |m| == |rest| + 1;
      assert Full(m) <==> Full(rest) && m[r].available == m[r].total;
      assert Dead(m) <==> Dead(rest) && m[r].available == 0;
    }
  }

  lemma MeanRange(sum: real, n: nat)
    requires n > 0 && 0.0 <= sum <= 100.0 * n as real
    ensures var p := Mean(sum, n).value;
      0.0 <= p <= 100.0 && (p == 100.0 <==> sum == 100.0 * n as real) && (p == 0.0 <==> sum == 0.0)
  {
    MeanTimes(sum, n);
    var p, k := Mean(sum, n).value, n as real;
    if p > 100.0 { Steeper(p, 100.0, k); }
    if p < 0.0 { Steeper(0.0, p, k); }
  }

  lemma ReportingSame(m: map<Region, Tally>)
    ensures (Full(Reporting(m)) <==> Full(m)) && (Dead(Reporting(m)) <==> Dead(m))
  {
    forall r | r in m && m[r].total > 0 ensures r in Reporting(m) && Reporting(m)[r] == m[r] {
    }
    forall r | r in Reporting(m) ensures r in m && m[r].total > 0 && Reporting(m)[r] == m[r] {
    }
  }

  /** A percentage lies in [0, 100]: 100 exactly if every reporting region was always up, 0 if all always down. */
  lemma PercentRange(m: map<Region, Tally>)
    requires forall r :: r in m ==> m[r].available <= m[r].total
    ensures Percent(m).Some? ==>
      var p := Percent(m).value;
      0.0 <= p <= 100.0 && (p == 100.0 <==> Full(m)) && (p == 0.0 <==> Dead(m))
  {
    var reporting := Reporting(m);
    ShareSumRange(reporting);
    ReportingSame(m);
    if |reporting| > 0 { MeanRange(ShareSum(reporting), |reporting|); }
  }

  // ---------- The trailing week ----------

  /** What the rows say about one region over the n days up to today. */
  function LastDays(rows: seq<DailyRow>, today: int, n: nat, region: Region): Tally {
    if n == 0 then Tally(0, 0)
    else Plus(LastDays(rows, today, n - 1, region), Total(rows, today - (n - 1), region))
  }

  /** The days today - (n - 1) up to today - i. */
  function DaysFrom(rows: seq<DailyRow>, today: int, n: nat, i: nat, region: Region): Tally
    decreases n - i
  {
    if i >= n then Tally(0, 0) else Plus(DaysFrom(rows, today, n, i + 1, region), Total(rows, today - i, region))
  }

  lemma {:induction false} DaysFromGrows(rows: seq<DailyRow>, today: int, n: nat, i: nat, region: Region)
    requires i <= n
    ensures DaysFrom(rows, today, n + 1, i, region) ==
            Plus(Total(rows, today - n, region), DaysFrom(rows, today, n, i, region))
    decreases n - i
  {
    if i < n { DaysFromGrows(rows, today, n, i + 1, region); }
  }

  lemma {:induction false} DaysFromIsLastDays(rows: seq<DailyRow>, today: int, n: nat, region: Region)
    ensures DaysFrom(rows, today, n, 0, region) == LastDays(rows, today, n, region)
  {
    if n > 0 {
      DaysFromIsLastDays(rows, today, n - 1, region);
      DaysFromGrows(rows, today, n - 1, 0, region);
    }
  }

  lemma GetPool(a: map<Region, Tally>, b: map<Region, Tally>, r: Region)
    ensures Get(Pool(a, b), r) == Plus(Get(a, r), Get(b, r))
  {
  }

  lemma {:induction false} TrailingIsDays(rows: seq<DailyRow>, today: int, n: nat, i: nat, r: Region)
    requires Positive(rows)
    ensures Get(Trailing(Accumulate(rows), today, n, i), r) == DaysFrom(rows, today, n, i, r)
    decreases n - i
  {
    if i < n {
      TrailingIsDays(rows, today, n, i + 1, r);
      AccumulateMeans(rows, today - i, r);
      var regions := RegionsOn(Accumulate(rows), today - i);
      assert Get(Reporting(regions), r) == Get(regions, r);
      GetPool(Trailing(Accumulate(rows), today, n, i + 1), Reporting(regions), r);
    }
  }

  /** The weekly figure pools, per region, the checks of the last seven days, or of all days if fewer are asked for. */
  lemma WeekExact(rows: seq<DailyRow>, today: int, days: nat, r: Region)
    requires Positive(rows)
    ensures Get(Trailing(Accumulate(rows), today, WeekDays(days), 0), r) ==
            LastDays(rows, today, if days < 7 then days else 7, r)
  {
    TrailingIsDays(rows, today, WeekDays(days), 0, r);
    DaysFromIsLastDays(rows, today, WeekDays(days), r);
  }

  // ---------- Counting checks ----------

  /** How many of the region's checks of one day there are, and how many of them found the target up or degraded. */
  function ChecksOf(rs: seq<CheckRow>, dayOf: CheckRow -> int, day: int, region: Region): Tally {
    if rs == [] then Tally(0, 0) else
    var c, n := rs[|rs| - 1], ChecksOf(rs[..|rs| - 1], dayOf, day, region);
    if c.region != region || dayOf(c) != day then n
    else if c.status == UP || c.status == DEGRADED then Tally(n.available + 1, n.total + 1)
    else Tally(n.available, n.total + 1)
  }

  /** What is counted per day and region: all checks, and those that found the target up or degraded. */
  lemma {:induction false} CheckTotalExact(rs: seq<CheckRow>, dayOf: CheckRow -> int, day: int, region: Region)
    ensures CheckTotal(rs, dayOf, day, region) == ChecksOf(rs, dayOf, day, region)
  {
    if rs != [] { CheckTotalExact(rs[..|rs| - 1], dayOf, day, region); }
  }

  /** A check belongs to the caller's day between whose midnights it ran. */
  lemma DayInExact(c: CheckRow, offset: int, d: int)
    ensures DayIn(offset)(c) == d <==>
            d * 86_400_000_000_000 <= c.at + offset * 60_000_000_000 < (d + 1) * 86_400_000_000_000
  {
    LocalDayExact(c.at, offset, d);
  }

  // ---------- The calendar ----------

  /** The caller's day holds an instant between its two midnights. */
  lemma LocalDayExact(t: int, offset: int, d: int)
    ensures LocalDay(t, offset) == d <==>
            d * 86_400_000_000_000 <= t + offset * 60_000_000_000 < (d + 1) * 86_400_000_000_000
  {
  }

  /** The window holds exactly the instants of the requested days and of days to come. */
  lemma WindowExact(now: int, days: nat, offset: int, t: int)
    ensures t >= WindowStart(now, days, offset) <==> LocalDay(t, offset) >= LocalDay(now, offset) - days + 1
  {
    var d := LocalDay(now, offset) - days + 1;
    assert WindowStart(now, days, offset) == d * DAY - offset * MINUTE;
    assert t + offset * MINUTE >= d * DAY <==> (t + offset * MINUTE) / DAY >= d;
  }

  /** The raw leg starts on the hour 25 hours back, or with the window if that is later. */
  lemma CutoffExact(now: int, since: int)
    ensures var cutoff := RawCutoff(now, since);
      && cutoff >= since
      && (cutoff > since ==>
            cutoff % 3_600_000_000_000 == 0 && 0 <= now - cutoff - 25 * 3_600_000_000_000 < 3_600_000_000_000)
      && (cutoff == since ==> now - 25 * 3_600_000_000_000 < since + 3_600_000_000_000)
  {
    CutoffOnTheHour(now, since);
  }
}
