/**
 * The daily uptime read (internal/database/bun/store.go): an older leg from hourly rollups, a
 * recent leg from raw checks, spliced at an hour boundary and shaped into calendar days.
 * Times are nanoseconds, percentages are exact.
 */
module Uptime {
  import opened Types
  import opened Stats

  const MINUTE: int := 60 * NANOS_PER_SECOND
  const HOUR: int := 60 * MINUTE
  const DAY: int := 24 * HOUR
  const RAW_WINDOW: int := 25 * HOUR

  // ---------- Calendar ----------

  function FloorHour(t: int): int { t - t % HOUR }

  /** The caller's calendar day of an instant, for a UTC offset in minutes. */
  function LocalDay(t: int, offset: int): int { (t + offset * MINUTE) / DAY }

  /** The instant the requested window of days starts at. */
  function WindowStart(now: int, days: nat, offset: int): int {
    (LocalDay(now, offset) - (days - 1)) * DAY - offset * MINUTE
  }

  /** The instant that divides the two legs. */
  function RawCutoff(now: int, since: int): int {
    var cutoff := FloorHour(now) - RAW_WINDOW;
    if cutoff < since then since else cutoff
  }

  // ---------- Rows ----------

  datatype DailyRow = DailyRow(day: int, region: Region, available: nat, total: nat)

  datatype Tally = Tally(available: nat, total: nat)

  function Plus(a: Tally, b: Tally): Tally { Tally(a.available + b.available, a.total + b.total) }

  lemma PlusSplits(all: Tally, a: Tally, b: Tally, one: Tally, inAll: bool, inA: bool, inB: bool)
    requires all == Plus(a, b) && (inAll <==> inA || inB) && !(inA && inB)
    ensures Plus(all, if inAll then one else Tally(0, 0)) ==
            Plus(Plus(a, if inA then one else Tally(0, 0)), Plus(b, if inB then one else Tally(0, 0)))
  {
  }

  lemma PlusSwaps(a: Tally, x: Tally, b: Tally)
    ensures Plus(Plus(a, x), b) == Plus(Plus(a, b), x)
  {
  }

  /** What the rows say about one region on one day. */
  function Total(rows: seq<DailyRow>, day: int, region: Region): Tally {
    if rows == [] then Tally(0, 0) else
    var last, rest := rows[|rows| - 1], Total(rows[..|rows| - 1], day, region);
    if last.day == day && last.region == region then Plus(rest, Tally(last.available, last.total)) else rest
  }

  /** Rows of a GROUP BY: no group is empty. */
  predicate Positive(rows: seq<DailyRow>) { forall r :: r in rows ==> r.total > 0 }

  // ---------- Raw checks ----------

  /** Checks taken by the hour bucket they were rolled up in, and by instant. */
  function Hours(since: int, cutoff: int): CheckRow -> bool { (c: CheckRow) => since <= FloorHour(c.at) < cutoff }
  function From(start: int): CheckRow -> bool { (c: CheckRow) => c.at >= start }

  /** The calendar day of a check for a UTC offset. */
  function DayIn(offset: int): CheckRow -> int { (c: CheckRow) => LocalDay(c.at, offset) }

  function OneCheck(c: CheckRow, dayOf: CheckRow -> int, day: int, region: Region): Tally {
    if dayOf(c) == day && c.region == region then Tally(if Measured(c.status) then 1 else 0, 1) else Tally(0, 0)
  }

  /** What a set of checks says about one region on one day. */
  function CheckTotal(rs: seq<CheckRow>, dayOf: CheckRow -> int, day: int, region: Region): Tally {
    if rs == [] then Tally(0, 0) else
    Plus(CheckTotal(rs[..|rs| - 1], dayOf, day, region), OneCheck(rs[|rs| - 1], dayOf, day, region))
  }

  function Select(rs: seq<CheckRow>, sel: CheckRow -> bool): seq<CheckRow> {
    if rs == [] then [] else
    Select(rs[..|rs| - 1], sel) + (if sel(rs[|rs| - 1]) then [rs[|rs| - 1]] else [])
  }

  // ---------- Rollup table ----------

  /** One hour of one region in monitor_result_rollups; available = up_checks + degraded_checks. */
  datatype HourRow = HourRow(region: Region, bucket: int, available: nat, total: nat)

  /** The row that summarises a group of checks. */
  function HourRowOf(g: Group): HourRow {
    HourRow(g.region, g.bucket, |Latencies(g.checks)|, |g.checks|)
  }

  function HourRows(groups: seq<Group>): seq<HourRow> {
    if groups == [] then [] else HourRows(groups[..|groups| - 1]) + [HourRowOf(groups[|groups| - 1])]
  }

  /** Checks are grouped by region and hour, and no group is empty. */
  predicate HourlyGroups(groups: seq<Group>) {
    forall g :: g in groups ==>
      g.checks != [] && forall c :: c in g.checks ==> c.region == g.region && FloorHour(c.at) == g.bucket
  }

  function InRange(table: seq<HourRow>, since: int, cutoff: int): seq<HourRow> {
    if table == [] then [] else
    InRange(table[..|table| - 1], since, cutoff) +
      (if since <= table[|table| - 1].bucket < cutoff then [table[|table| - 1]] else [])
  }

  function OneHour(h: HourRow, offset: int, day: int, region: Region): Tally {
    if LocalDay(h.bucket, offset) == day && h.region == region then Tally(h.available, h.total) else Tally(0, 0)
  }

  /** What rollup rows say about one region on one day. */
  function HourTotal(table: seq<HourRow>, offset: int, day: int, region: Region): Tally {
    if table == [] then Tally(0, 0) else
    Plus(HourTotal(table[..|table| - 1], offset, day, region), OneHour(table[|table| - 1], offset, day, region))
  }

  /** The rollups are up to date for the hours the read takes from them. */
  ghost predicate UpToDate(table: seq<HourRow>, groups: seq<Group>, rs: seq<CheckRow>, since: int, cutoff: int) {
    && HourlyGroups(groups)
    && InRange(table, since, cutoff) == HourRows(groups)
    && multiset(Flatten(groups)) == multiset(Select(rs, Hours(since, cutoff)))
  }

  // ---------- The two legs ----------

  /** GROUP BY day, region over the rollup rows in range: the sums per group, in any order. */
  ghost predicate IsRollupLeg(leg: seq<DailyRow>, table: seq<HourRow>, since: int, cutoff: int, offset: int) {
    Positive(leg) && forall d, r :: Total(leg, d, r) == HourTotal(InRange(table, since, cutoff), offset, d, r)
  }

  /** GROUP BY day, region over the raw checks from an instant on. */
  ghost predicate IsRawLeg(leg: seq<DailyRow>, rs: seq<CheckRow>, start: int, offset: int) {
    Positive(leg) && forall d, r :: Total(leg, d, r) == CheckTotal(Select(rs, From(start)), DayIn(offset), d, r)
  }

  // ---------- Sums are additive and order-free ----------

  lemma {:induction false} TotalAppends(a: seq<DailyRow>, b: seq<DailyRow>, d: int, r: Region)
    ensures Total(a + b, d, r) == Plus(Total(a, d, r), Total(b, d, r))
    decreases |b|
  {
    if b == [] {
      assert a + b == a;
    } else {
      assert (a + b)[..|a + b| - 1] == a + b[..|b| - 1];
      TotalAppends(a, b[..|b| - 1], d, r);
    }
  }

  lemma {:induction false} CheckTotalAppends(a: seq<CheckRow>, b: seq<CheckRow>, dayOf: CheckRow -> int, d: int,
                                             r: Region)
    ensures CheckTotal(a + b, dayOf, d, r) == Plus(CheckTotal(a, dayOf, d, r), CheckTotal(b, dayOf, d, r))
    decreases |b|
  {
    if b == [] {
      assert a + b == a;
    } else {
      assert (a + b)[..|a + b| - 1] == a + b[..|b| - 1];
      CheckTotalAppends(a, b[..|b| - 1], dayOf, d, r);
    }
  }

  lemma {:induction false} CheckTotalPermutes(a: seq<CheckRow>, b: seq<CheckRow>, dayOf: CheckRow -> int, d: int,
                                              r: Region)
    requires multiset(a) == multiset(b)
    ensures CheckTotal(a, dayOf, d, r) == CheckTotal(b, dayOf, d, r)
    decreases |a|
  {
    if a == [] {
      assert |multiset(b)| == 0;
    } else {
      var i := TakeOut(a, b);
      CheckTotalPermutes(a[..|a| - 1], b[..i] + b[i + 1..], dayOf, d, r);
      TakenTotal(b, i, dayOf, d, r);
    }
  }

  lemma TakenTotal(b: seq<CheckRow>, i: nat, dayOf: CheckRow -> int, d: int, r: Region)
    requires i < |b|
    ensures CheckTotal(b, dayOf, d, r) ==
            Plus(CheckTotal(b[..i] + b[i + 1..], dayOf, d, r), OneCheck(b[i], dayOf, d, r))
  {
    var front, mid, back := b[..i], [b[i]], b[i + 1..];
    assert b == front + mid + back && mid[..0] == [];
    CheckTotalAppends(front, back, dayOf, d, r);
    CheckTotalAppends(front, mid, dayOf, d, r);
    CheckTotalAppends(front + mid, back, dayOf, d, r);
    PlusSwaps(CheckTotal(front, dayOf, d, r), OneCheck(b[i], dayOf, d, r), CheckTotal(back, dayOf, d, r));
  }

  // ---------- Rollup hours stand for their checks ----------

  lemma HourKeepsDay(t: int, offset: int)
    requires offset % 60 == 0
    ensures LocalDay(FloorHour(t), offset) == LocalDay(t, offset)
  {
    var k := offset / 60;
    var x := t + k * HOUR;
    assert offset * MINUTE == k * HOUR;
    FloorWithinDay(x);
    assert x % HOUR == t % HOUR by { ShiftModulo(t, k); }
    assert FloorHour(t) + offset * MINUTE == x - x % HOUR;
  }

  lemma ShiftModulo(t: int, k: int)
    ensures (t + k * HOUR) % HOUR == t % HOUR
  {
    var q := t / HOUR;
    assert t == q * HOUR + t % HOUR;
    assert t + k * HOUR == (q + k) * HOUR + t % HOUR;
  }

  lemma FloorWithinDay(x: int)
    ensures (x - x % HOUR) / DAY == x / DAY
  {
    var q, s := x / DAY, x % DAY;
    assert x == q * DAY + s;
    assert DAY == 24 * HOUR;
    assert x == s + (q * 24) * HOUR;
    ShiftModulo(s, q * 24);
    assert 0 <= s - s % HOUR < DAY;
    assert x - x % HOUR == q * DAY + (s - s % HOUR);
  }

  /** All checks of a group fall on the day of its hour when the offset is whole hours. */
  lemma {:induction false} GroupOnOneDay(g: Group, cs: seq<CheckRow>, offset: int, d: int, r: Region)
    requires offset % 60 == 0
    requires forall c :: c in cs ==> c.region == g.region && FloorHour(c.at) == g.bucket
    ensures CheckTotal(cs, DayIn(offset), d, r) ==
            OneHour(HourRow(g.region, g.bucket, |Latencies(cs)|, |cs|), offset, d, r)
  {
    if cs != [] {
      var last := cs[|cs| - 1];
      GroupOnOneDay(g, cs[..|cs| - 1], offset, d, r);
      assert last in cs;
      HourKeepsDay(last.at, offset);
    }
  }

  lemma {:induction false} HoursStandForChecks(groups: seq<Group>, offset: int, d: int, r: Region)
    requires offset % 60 == 0 && HourlyGroups(groups)
    ensures HourTotal(HourRows(groups), offset, d, r) == CheckTotal(Flatten(groups), DayIn(offset), d, r)
  {
    if groups != [] {
      var init, g := groups[..|groups| - 1], groups[|groups| - 1];
      assert g in groups;
      HoursStandForChecks(init, offset, d, r);
      GroupOnOneDay(g, g.checks, offset, d, r);
      CheckTotalAppends(Flatten(init), g.checks, DayIn(offset), d, r);
      var hours := HourRows(groups);
      assert hours[..|hours| - 1] == HourRows(init);
    }
  }

  // ---------- The cutoff ----------

  /** Either the rollup range is empty or the cutoff is on the hour. */
  lemma CutoffOnTheHour(now: int, since: int)
    ensures var cutoff := RawCutoff(now, since); since <= cutoff && (cutoff == since || cutoff % HOUR == 0)
  {
    var c := FloorHour(now) - RAW_WINDOW;
    assert FloorHour(now) == (now / HOUR) * HOUR;
    assert c == (now / HOUR - 25) * HOUR;
    ShiftModulo(0, now / HOUR - 25);
  }

  lemma OnTheHour(t: int, h: int)
    requires h % HOUR == 0
    ensures FloorHour(t) >= h <==> t >= h
  {
    var q, s := t / HOUR, h / HOUR;
    assert t == q * HOUR + t % HOUR && h == s * HOUR;
    if q < s {
      assert (s - q) * HOUR >= HOUR;
      assert t < h;
    } else {
      assert (q - s) * HOUR >= 0;
      assert FloorHour(t) >= h;
    }
  }

  /** No check is ever selected by both legs. */
  lemma LegsDisjoint(now: int, since: int, t: int)
    ensures var cutoff := RawCutoff(now, since); !(since <= FloorHour(t) < cutoff && t >= cutoff)
  {
    CutoffOnTheHour(now, since);
    var cutoff := RawCutoff(now, since);
    if cutoff != since { OnTheHour(t, cutoff); }
  }

  /** With the window starting on the hour, every check since then is selected by exactly one leg. */
  lemma LegsCover(now: int, since: int, t: int)
    requires since % HOUR == 0
    ensures var cutoff := RawCutoff(now, since); t >= since <==> since <= FloorHour(t) < cutoff || t >= cutoff
  {
    CutoffOnTheHour(now, since);
    var cutoff := RawCutoff(now, since);
    OnTheHour(t, since);
    if cutoff != since { OnTheHour(t, cutoff); }
  }

  /** One query split into two that never both select a check. */
  ghost predicate SplitsInto(rs: seq<CheckRow>, all: CheckRow -> bool, a: CheckRow -> bool, b: CheckRow -> bool) {
    forall c :: c in rs ==> (all(c) <==> a(c) || b(c)) && !(a(c) && b(c))
  }

  lemma {:induction false} SplitTotals(rs: seq<CheckRow>, all: CheckRow -> bool, a: CheckRow -> bool,
                                       b: CheckRow -> bool,
                                       dayOf: CheckRow -> int, d: int, r: Region)
    requires SplitsInto(rs, all, a, b)
    ensures CheckTotal(Select(rs, all), dayOf, d, r) ==
            Plus(CheckTotal(Select(rs, a), dayOf, d, r), CheckTotal(Select(rs, b), dayOf, d, r))
  {
    if rs != [] {
      var init, last := rs[..|rs| - 1], rs[|rs| - 1];
      SplitTotals(init, all, a, b, dayOf, d, r);
      SelectLast(rs, all, dayOf, d, r);
      SelectLast(rs, a, dayOf, d, r);
      SelectLast(rs, b, dayOf, d, r);
      assert last in rs;
      PlusSplits(CheckTotal(Select(init, all), dayOf, d, r), CheckTotal(Select(init, a), dayOf, d, r),
                 CheckTotal(Select(init, b), dayOf, d, r), OneCheck(last, dayOf, d, r), all(last), a(last), b(last));
    }
  }

  /** The last check adds what it says if it is selected. */
  lemma SelectLast(rs: seq<CheckRow>, sel: CheckRow -> bool, dayOf: CheckRow -> int, d: int, r: Region)
    requires rs != []
    ensures var init, last := rs[..|rs| - 1], rs[|rs| - 1];
      CheckTotal(Select(rs, sel), dayOf, d, r) ==
      Plus(CheckTotal(Select(init, sel), dayOf, d, r), if sel(last) then OneCheck(last, dayOf, d, r) else Tally(0, 0))
  {
    var init, last := Select(rs[..|rs| - 1], sel), rs[|rs| - 1];
    if sel(last) {
      assert (init + [last])[..|init|] == init;
    } else {
      assert init + [] == init;
    }
  }

  /** The window starts on the hour when the offset is whole hours. */
  lemma WholeHourStart(now: int, days: nat, offset: int)
    requires offset % 60 == 0
    ensures WindowStart(now, days, offset) % HOUR == 0
  {
    var k, n := offset / 60, LocalDay(now, offset) - (days - 1);
    assert offset * MINUTE == k * HOUR;
    assert WindowStart(now, days, offset) == (n * 24 - k) * HOUR;
    ShiftModulo(0, n * 24 - k);
  }

  /**
   * For whole-hour offsets and up-to-date rollups the spliced legs carry, for every day and
   * region, exactly the sums of all raw checks since the start of the window. The clock is read
   * once for the window and once for the cutoff.
   */
  lemma SpliceTotals(rs: seq<CheckRow>, table: seq<HourRow>, groups: seq<Group>, rollupLeg: seq<DailyRow>,
                     rawLeg: seq<DailyRow>, now: int, later: int, days: nat, offset: int, d: int, r: Region)
    requires offset % 60 == 0
    requires var since := WindowStart(now, days, offset); var cutoff := RawCutoff(later, since);
      && UpToDate(table, groups, rs, since, cutoff)
      && IsRollupLeg(rollupLeg, table, since, cutoff, offset)
      && IsRawLeg(rawLeg, rs, cutoff, offset)
    ensures Total(rollupLeg + rawLeg, d, r) ==
            CheckTotal(Select(rs, From(WindowStart(now, days, offset))), DayIn(offset), d, r)
  {
    var since := WindowStart(now, days, offset);
    var cutoff := RawCutoff(later, since);
    WholeHourStart(now, days, offset);
    TotalAppends(rollupLeg, rawLeg, d, r);
    HoursStandForChecks(groups, offset, d, r);
    CheckTotalPermutes(Flatten(groups), Select(rs, Hours(since, cutoff)), DayIn(offset), d, r);
    LegsPartition(rs, later, since);
    SplitTotals(rs, From(since), Hours(since, cutoff), From(cutoff), DayIn(offset), d, r);
  }

  /** A window that starts on the hour is partitioned by the legs. */
  lemma LegsPartition(rs: seq<CheckRow>, now: int, since: int)
    requires since % HOUR == 0
    ensures var cutoff := RawCutoff(now, since); SplitsInto(rs, From(since), Hours(since, cutoff), From(cutoff))
  {
    forall c | c in rs
      ensures var cutoff := RawCutoff(now, since);
        && (From(since)(c) <==> Hours(since, cutoff)(c) || From(cutoff)(c))
        && !(Hours(since, cutoff)(c) && From(cutoff)(c))
    {
      LegsCover(now, since, c.at);
      LegsDisjoint(now, since, c.at);
    }
  }
}
