/** Shaping the spliced rows into days (computeDailyUptime), and the equality of the whole read. */
module UptimeShape {
  import opened Types
  import opened Stats
  import opened Uptime

  type ByDay = map<int, map<Region, Tally>>

  function RegionsOn(byDay: ByDay, day: int): map<Region, Tally> {
    if day in byDay then byDay[day] else map[]
  }

  function Get(m: map<Region, Tally>, r: Region): Tally { if r in m then m[r] else Tally(0, 0) }

  /** Rows accumulate per day and region; duplicates sum. */
  function AddRow(byDay: ByDay, row: DailyRow): ByDay {
    var regions := RegionsOn(byDay, row.day);
    byDay[row.day := regions[row.region := Plus(Get(regions, row.region), Tally(row.available, row.total))]]
  }

  function Accumulate(rows: seq<DailyRow>): ByDay {
    if rows == [] then map[] else AddRow(Accumulate(rows[..|rows| - 1]), rows[|rows| - 1])
  }

  lemma {:induction false} AccumulateMeans(rows: seq<DailyRow>, d: int, r: Region)
    requires Positive(rows)
    ensures var regions := RegionsOn(Accumulate(rows), d);
      && Get(regions, r) == Total(rows, d, r)
      && (r in regions <==> Total(rows, d, r).total > 0)
      && (d in Accumulate(rows) ==> regions != map[])
  {
    if rows != [] {
      assert rows[|rows| - 1] in rows;
      AccumulateMeans(rows[..|rows| - 1], d, r);
    }
  }

  /** Row sequences with the same sums per day and region accumulate to the same tables. */
  lemma SameTotalsAccumulate(a: seq<DailyRow>, b: seq<DailyRow>)
    requires Positive(a) && Positive(b) && forall d, r :: Total(a, d, r) == Total(b, d, r)
    ensures Accumulate(a) == Accumulate(b)
  {
    forall d
      ensures RegionsOn(Accumulate(a), d) == RegionsOn(Accumulate(b), d)
      ensures d in Accumulate(a) <==> RegionsOn(Accumulate(a), d) != map[]
      ensures d in Accumulate(b) <==> RegionsOn(Accumulate(b), d) != map[]
    {
      forall r
        ensures r in RegionsOn(Accumulate(a), d) <==> r in RegionsOn(Accumulate(b), d)
        ensures Get(RegionsOn(Accumulate(a), d), r) == Get(RegionsOn(Accumulate(b), d), r)
      {
        AccumulateMeans(a, d, r);
        AccumulateMeans(b, d, r);
      }
      AccumulateMeans(a, d, "");
      AccumulateMeans(b, d, "");
      SameRegions(RegionsOn(Accumulate(a), d), RegionsOn(Accumulate(b), d));
    }
    SameDays(Accumulate(a), Accumulate(b));
  }

  lemma SameRegions(m: map<Region, Tally>, n: map<Region, Tally>)
    requires forall r :: (r in m <==> r in n) && Get(m, r) == Get(n, r)
    ensures m == n
  {
    forall r | r in m ensures m[r] == n[r] {
      assert Get(m, r) == Get(n, r);
    }
  }

  lemma SameDays(m: ByDay, n: ByDay)
    requires forall d :: RegionsOn(m, d) == RegionsOn(n, d)
    requires forall d :: (d in m <==> RegionsOn(m, d) != map[]) && (d in n <==> RegionsOn(n, d) != map[])
    ensures m == n
  {
    forall d ensures d in m <==> d in n {
      assert RegionsOn(m, d) == RegionsOn(n, d);
    }
    forall d | d in m ensures m[d] == n[d] {
      assert RegionsOn(m, d) == RegionsOn(n, d);
    }
  }

  // ---------- Percentages ----------

  function Share(a: Tally): real
    requires a.total > 0
  {
    a.available as real / a.total as real * 100.0
  }

  /** Regions that reported at least one check. */
  function Reporting(m: map<Region, Tally>): map<Region, Tally> {
    map r | r in m && m[r].total != 0 :: m[r]
  }

  ghost function ShareSum(m: map<Region, Tally>): real
    requires forall r :: r in m ==> m[r].total > 0
    decreases |m|
  {
    if m == map[] then 0.0 else
    var r :| r in m;
    Share(m[r]) + ShareSum(m - {r})
  }

  /** The sum does not depend on the order in which regions are visited. */
  lemma {:induction false} ShareSumTakes(m: map<Region, Tally>, r: Region)
    requires (forall k :: k in m ==> m[k].total > 0) && r in m
    ensures ShareSum(m) == Share(m[r]) + ShareSum(m - {r})
    decreases |m|
  {
    var first :| first in m && ShareSum(m) == Share(m[first]) + ShareSum(m - {first});
    if first != r {
      ShareSumTakes(m - {first}, r);
      ShareSumTakes(m - {r}, first);
      assert m - {first} - {r} == m - {r} - {first};
    }
  }

  /** Mean over reporting regions of each region's share of available checks; None if nobody reported. */
  ghost function Percent(m: map<Region, Tally>): Option<real> {
    Mean(ShareSum(Reporting(m)), |Reporting(m)|)
  }

  function Mean(sum: real, n: nat): Option<real> { if n == 0 then None else Some(sum / n as real) }

  /** Pooling two tables region by region. */
  function Pool(a: map<Region, Tally>, b: map<Region, Tally>): map<Region, Tally> {
    map r | r in a.Keys + b.Keys :: Plus(Get(a, r), Get(b, r))
  }

  /** How many of the requested days fall in the trailing week. */
  function WeekDays(days: nat): nat { if days < 7 then days else 7 }

  /** Reporting regions pooled over the days today - (n - 1) up to today - i. */
  function Trailing(byDay: ByDay, today: int, n: nat, i: nat): map<Region, Tally>
    decreases n - i
  {
    if i >= n then map[] else Pool(Trailing(byDay, today, n, i + 1), Reporting(RegionsOn(byDay, today - i)))
  }

  /** One calendar day; None means not monitored. */
  datatype Daily = Daily(day: int, percent: Option<real>)

  // ---------- computeDailyUptime ----------

  /** Visit the regions of one table in any order; optionally pool them into the week. */
  method Visit(m: map<Region, Tally>, pooling: bool, week: map<Region, Tally>)
    returns (percent: Option<real>, week': map<Region, Tally>)
    ensures percent == Percent(m)
    ensures week' == if pooling then Pool(week, Reporting(m)) else week
  {
    var sum, reporting := 0.0, 0;
    week' := week;
    var todo := m.Keys;
    NothingVisited(m, pooling, week);
    while todo != {}
      invariant todo <= m.Keys
      invariant Visited(m - todo, pooling, week, sum, reporting, week')
      decreases |todo|
    {
      var r :| r in todo;
      VisitStep(m, todo, r, pooling, week, sum, reporting, week');
      if m[r].total != 0 {
        sum := sum + Share(m[r]);
        reporting := reporting + 1;
        if pooling {
          week' := week'[r := Plus(Get(week', r), m[r])];
        }
      }
      todo := todo - {r};
    }
    assert m - todo == m;
    percent := Mean(sum, reporting);
  }

  /** What the loop has added up once the regions of m are visited. */
  ghost predicate Visited(m: map<Region, Tally>, pooling: bool, week: map<Region, Tally>,
                          sum: real, reporting: nat, week': map<Region, Tally>) {
    && reporting == |Reporting(m)| && sum == ShareSum(Reporting(m))
    && week' == if pooling then Pool(week, Reporting(m)) else week
  }

  lemma NothingVisited(m: map<Region, Tally>, pooling: bool, week: map<Region, Tally>)
    ensures Visited(m - m.Keys, pooling, week, 0.0, 0, week)
  {
    assert m - m.Keys == map[];
    EmptyVisited(pooling, week);
  }

  lemma EmptyVisited(pooling: bool, week: map<Region, Tally>)
    ensures Visited(map[], pooling, week, 0.0, 0, week)
  {
    assert Reporting(map[]) == map[];
    if pooling { assert Pool(week, map[]) == week; }
  }

  /** Visiting one more region adds it if it reported. */
  lemma VisitStep(m: map<Region, Tally>, todo: set<Region>, r: Region, pooling: bool, week: map<Region, Tally>,
                  sum: real, reporting: nat, week': map<Region, Tally>)
    requires r in todo && todo <= m.Keys && Visited(m - todo, pooling, week, sum, reporting, week')
    ensures var a, m' := m[r], m - (todo - {r});
      if a.total == 0 then Visited(m', pooling, week, sum, reporting, week')
      else Visited(m', pooling, week, sum + Share(a), reporting + 1,
                   if pooling then week'[r := Plus(Get(week', r), a)] else week')
  {
    var seen, a := Reporting(m - todo), m[r];
    assert Reporting(m - (todo - {r})) == if a.total == 0 then seen else seen[r := a];
    if a.total != 0 {
      SumGrows(seen, r, a);
      if pooling { PoolGrows(week, seen, r, a, week'[r := Plus(Get(week', r), a)]); }
    }
  }

  lemma SumGrows(seen: map<Region, Tally>, r: Region, a: Tally)
    requires (forall k :: k in seen ==> seen[k].total > 0) && r !in seen && a.total > 0
    ensures ShareSum(seen[r := a]) == ShareSum(seen) + Share(a) && |seen[r := a]| == |seen| + 1
  {
    ShareSumTakes(seen[r := a], r);
    assert seen[r := a] - {r} == seen;
  }

  lemma PoolGrows(week: map<Region, Tally>, seen: map<Region, Tally>, r: Region, a: Tally, week': map<Region, Tally>)
    requires r !in seen
    requires week' == Pool(week, seen)[r := Plus(Get(Pool(week, seen), r), a)]
    ensures week' == Pool(week, seen[r := a])
  {
  }

  method CollectByDay(rows: seq<DailyRow>) returns (byDay: ByDay)
    ensures byDay == Accumulate(rows)
  {
    byDay := map[];
    for k := 0 to |rows|
      invariant byDay == Accumulate(rows[..k])
    {
      assert rows[..k + 1][..k] == rows[..k];
      byDay := AddRow(byDay, rows[k]);
    }
    assert rows[..|rows|] == rows;
  }

  ghost function Judged(byDay: ByDay, day: int): Daily { Daily(day, Percent(RegionsOn(byDay, day))) }

  /** The days today - (days - 1) up to today - i, oldest first. */
  ghost function Series(byDay: ByDay, today: int, days: nat, i: nat): seq<Daily>
    decreases days - i
  {
    if i >= days then [] else Series(byDay, today, days, i + 1) + [Judged(byDay, today - i)]
  }

  /** Exactly the requested days, each judged by the rows of that day alone. */
  lemma {:induction false} SeriesFillsWindow(byDay: ByDay, today: int, days: nat, i: nat, k: nat)
    requires i <= days
    ensures var series := Series(byDay, today, days, i);
      && |series| == days - i
      && (k < |series| ==> var day := today - days + 1 + k; series[k] == Daily(day, Percent(RegionsOn(byDay, day))))
    decreases days - i
  {
    if i < days {
      SeriesFillsWindow(byDay, today, days, i + 1, k);
      DayAppended(Series(byDay, today, days, i + 1), byDay, today, days, i, k);
    }
  }

  lemma DayAppended(rest: seq<Daily>, byDay: ByDay, today: int, days: nat, i: nat, k: nat)
    requires i < days && |rest| == days - i - 1
    requires k < |rest| ==> rest[k] == Judged(byDay, today - days + 1 + k)
    ensures var series := rest + [Judged(byDay, today - i)];
      |series| == days - i && (k < |series| ==> series[k] == Judged(byDay, today - days + 1 + k))
  {
    if k == |rest| { assert today - i == today - days + 1 + k; }
  }

  method ComputeDailyUptime(rows: seq<DailyRow>, today: int, days: nat)
    returns (series: seq<Daily>, uptime7d: Option<real>)
    ensures series == Series(Accumulate(rows), today, days, 0)
    ensures uptime7d == Percent(Trailing(Accumulate(rows), today, WeekDays(days), 0))
  {
    var byDay := CollectByDay(rows);
    var week: map<Region, Tally>;
    series, week := WalkDays(byDay, today, days);
    var untouched;
    uptime7d, untouched := Visit(week, false, map[]);
  }

  method WalkDays(byDay: ByDay, today: int, days: nat) returns (series: seq<Daily>, week: map<Region, Tally>)
    ensures series == Series(byDay, today, days, 0)
    ensures week == Trailing(byDay, today, WeekDays(days), 0)
  {
    week := map[];
    series := [];
    var i: nat := days;
    while i > 0
      invariant series == Series(byDay, today, days, i)
      invariant week == Trailing(byDay, today, WeekDays(days), i)
      invariant i <= days
    {
      i := i - 1;
      var percent;
      percent, week := Visit(RegionsOn(byDay, today - i), i < 7, week);
      series := series + [Daily(today - i, percent)];
    }
  }

  // ---------- The whole read ----------

  /**
   * For whole-hour offsets and up-to-date rollups, the answer computed from the spliced legs is
   * the answer computed from all raw checks since the start of the window.
   */
  lemma SplicedReadIsExact(rs: seq<CheckRow>, table: seq<HourRow>, groups: seq<Group>, rollupLeg: seq<DailyRow>,
                           rawLeg: seq<DailyRow>, all: seq<DailyRow>, now: int, later: int, days: nat, offset: int)
    requires offset % 60 == 0
    requires var since := WindowStart(now, days, offset); var cutoff := RawCutoff(later, since);
      && UpToDate(table, groups, rs, since, cutoff)
      && IsRollupLeg(rollupLeg, table, since, cutoff, offset)
      && IsRawLeg(rawLeg, rs, cutoff, offset)
      && IsRawLeg(all, rs, since, offset)
    ensures Accumulate(rollupLeg + rawLeg) == Accumulate(all)
  {
    forall d, r
      ensures Total(rollupLeg + rawLeg, d, r) == Total(all, d, r)
    {
      SpliceTotals(rs, table, groups, rollupLeg, rawLeg, now, later, days, offset, d, r);
    }
    assert Positive(rollupLeg + rawLeg);
    SameTotalsAccumulate(rollupLeg + rawLeg, all);
  }

  // ---------- No check is counted twice, whatever the offset ----------

  /** Selected by one of the legs. */
  function Counted(since: int, cutoff: int): CheckRow -> bool {
    (c: CheckRow) => since <= FloorHour(c.at) < cutoff || c.at >= cutoff
  }

  lemma {:induction false} SelectSplits(rs: seq<CheckRow>, all: CheckRow -> bool, a: CheckRow -> bool,
                                        b: CheckRow -> bool)
    requires SplitsInto(rs, all, a, b)
    ensures multiset(Select(rs, a)) + multiset(Select(rs, b)) == multiset(Select(rs, all))
  {
    if rs != [] {
      assert rs[|rs| - 1] in rs;
      SelectSplits(rs[..|rs| - 1], all, a, b);
    }
  }

  lemma {:induction false} SelectIsPart(rs: seq<CheckRow>, sel: CheckRow -> bool)
    ensures multiset(Select(rs, sel)) <= multiset(rs)
  {
    if rs != [] {
      var init, last := rs[..|rs| - 1], rs[|rs| - 1];
      SelectIsPart(init, sel);
      assert rs == init + [last];
    }
  }

  lemma {:induction false} SelectSame(rs: seq<CheckRow>, a: CheckRow -> bool, b: CheckRow -> bool)
    ensures Select(rs, a) == Select(rs, b) <==> forall c :: c in rs ==> (a(c) <==> b(c))
  {
    if forall c :: c in rs ==> (a(c) <==> b(c)) {
      SelectAgrees(rs, a, b);
    } else {
      var c :| c in rs && !(a(c) <==> b(c));
      SelectHas(rs, a, c);
      SelectHas(rs, b, c);
    }
  }

  lemma {:induction false} SelectAgrees(rs: seq<CheckRow>, a: CheckRow -> bool, b: CheckRow -> bool)
    requires forall c :: c in rs ==> (a(c) <==> b(c))
    ensures Select(rs, a) == Select(rs, b)
  {
    if rs != [] {
      assert rs[|rs| - 1] in rs;
      SelectAgrees(rs[..|rs| - 1], a, b);
    }
  }

  lemma {:induction false} SelectHas(rs: seq<CheckRow>, sel: CheckRow -> bool, c: CheckRow)
    requires c in rs
    ensures c in Select(rs, sel) <==> sel(c)
  {
    var init, last := rs[..|rs| - 1], rs[|rs| - 1];
    assert rs == init + [last];
    if c in init { SelectHas(init, sel, c); }
    else { SelectOnly(init, sel, c); }
  }

  lemma {:induction false} SelectOnly(rs: seq<CheckRow>, sel: CheckRow -> bool, c: CheckRow)
    requires c !in rs
    ensures c !in Select(rs, sel)
  {
    if rs != [] { SelectOnly(rs[..|rs| - 1], sel, c); }
  }

  /**
   * For any offset the checks behind the two legs are together a selection of the raw checks, each
   * at most once; they are all checks since the window start exactly when none lies in the partial
   * first hour that only the rollups could have covered.
   */
  lemma SpliceCountsOnce(rs: seq<CheckRow>, table: seq<HourRow>, groups: seq<Group>, now: int, since: int)
    requires UpToDate(table, groups, rs, since, RawCutoff(now, since))
    ensures var cutoff := RawCutoff(now, since); var behind := multiset(Flatten(groups) + Select(rs, From(cutoff)));
      && behind == multiset(Select(rs, Counted(since, cutoff))) && behind <= multiset(rs)
      && (Select(rs, Counted(since, cutoff)) == Select(rs, From(since)) <==>
          forall c :: c in rs && since <= c.at < cutoff ==> since <= FloorHour(c.at))
  {
    var cutoff := RawCutoff(now, since);
    CutoffOnTheHour(now, since);
    forall c | c in rs
      ensures (Counted(since, cutoff)(c) <==> Hours(since, cutoff)(c) || From(cutoff)(c))
              && !(Hours(since, cutoff)(c) && From(cutoff)(c))
      ensures (Counted(since, cutoff)(c) <==> From(since)(c)) <==> (since <= c.at < cutoff ==> since <= FloorHour(c.at))
    {
      LegsDisjoint(now, since, c.at);
      if cutoff != since { OnTheHour(c.at, cutoff); }
    }
    SelectSplits(rs, Counted(since, cutoff), Hours(since, cutoff), From(cutoff));
    SelectIsPart(rs, Counted(since, cutoff));
    SelectSame(rs, Counted(since, cutoff), From(since));
  }
}
