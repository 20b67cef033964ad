/**
 * A run from an empty database in which one lasting outage is confirmed, resolved by a failing
 * check and reopened by a re-evaluation.
 */
module QuorumWitness {
  import opened Types
  import opened Plans
  import opened Quorum
  import opened QuorumRuns
  import opened QuorumLaws

  function Failure(region: Region, bad: Status, source: Source, now: int): Check {
    Check(region, bad, 0, None, None, source, now, false)
  }

  function Row(bad: Status, source: Source, now: int): RegionStatus {
    RegionStatus(bad, 0, None, None, source, now)
  }

  /** The quorum tables of a monitor checked from a, with b alive as well. */
  ghost predicate At(db: Db, m: MonitorId, a: Region, beats: map<Region, int>,
                     rows: map<Region, RegionStatus>, reqs: map<Region, Request>, open: Option<Status>) {
    && Valid(db) && m in db.config.monitors && db.config.monitors[m].regions == [a]
    && db.heartbeats == beats && RowsOf(db.statuses, m) == rows && RowsOf(db.requests, m) == reqs
    && OpenStatus(db.incidents, m) == open
  }

  function Beats(a: Region, b: Region, t: int, later: int): map<Region, int> { map[a := t, b := later] }

  function OneRow(a: Region, bad: Status, t: int): map<Region, RegionStatus> { map[a := Row(bad, SCHEDULED, t)] }

  function BothRows(a: Region, b: Region, bad: Status, t: int): map<Region, RegionStatus> {
    map[a := Row(bad, SCHEDULED, t), b := Row(bad, VERIFICATION, t)]
  }

  function Asked(b: Region, batch: nat, t: int, claimed: Option<int>): map<Region, Request> {
    map[b := Request(batch, t, t + REQUEST_TTL, claimed)]
  }

  lemma AsksB(db: Db, m: MonitorId, a: Region, b: Region, t: int, bad: Status)
    requires At(db, m, a, Beats(a, b, t, t), map[], map[], None) && a != b
    ensures ToConfirm(Upsert(db, m, Failure(a, bad, SCHEDULED, t)), m, a, t) == {b}
  {
  }

  lemma FirstRecorded(db: Db, m: MonitorId, a: Region, b: Region, t: int, bad: Status)
    requires At(db, m, a, Beats(a, b, t, t), map[], map[], None) && a != b && bad != UP
    ensures At(Recorded(db, m, Failure(a, bad, SCHEDULED, t)), m, a, Beats(a, b, t, t),
               OneRow(a, bad, t), Asked(b, db.nextId, t, None), None)
  {
    var c := Failure(a, bad, SCHEDULED, t);
    RecordedEffect(db, m, c);
    AsksB(db, m, a, b, t, bad);
    assert RowsOf(Recorded(db, m, c).requests, m) == Asked(b, db.nextId, t, None);
  }

  lemma Waiting(db: Db, m: MonitorId, a: Region, b: Region, t: int, bad: Status, batch: nat)
    requires At(db, m, a, Beats(a, b, t, t), OneRow(a, bad, t), Asked(b, batch, t, None), None)
    requires a != b && bad != UP
    ensures !Majority(db, m, t)
  {
    assert Reporters(db, m, t) == {a};
    assert b in Active(db, t);
    assert Pending(db, m, t) == {b};
    assert Unhealthy(db, m, t) == {a} && Electorate(db, m, t) == {a, b};
  }

  lemma NothingYet(db: Db, m: MonitorId, e: Evaluation)
    requires m in db.config.monitors && !Majority(db, m, e.now) && OpenStatus(db.incidents, m).None?
    ensures Evaluate(db, m, e) == Outcome(db, Nothing, None)
  {
  }

  /** The first failure asks b, and waits. */
  lemma FirstFailure(db: Db, m: MonitorId, a: Region, b: Region, t: int, bad: Status)
    requires At(db, m, a, Beats(a, b, t, t), map[], map[], None) && a != b && bad != UP
    ensures var o := RecordCheck(db, m, Failure(a, bad, SCHEDULED, t));
      && o.transition == Nothing
      && At(o.db, m, a, Beats(a, b, t, t), OneRow(a, bad, t), Asked(b, db.nextId, t, None), None)
      && o.db.requests.Keys == db.requests.Keys + {m}
  {
    var c := Failure(a, bad, SCHEDULED, t);
    FirstRecorded(db, m, a, b, t, bad);
    Waiting(Recorded(db, m, c), m, a, b, t, bad, db.nextId);
    NothingYet(Recorded(db, m, c), m, EvaluationOf(c));
  }

  lemma ConfirmationRecorded(db: Db, m: MonitorId, a: Region, b: Region, t: int, bad: Status, batch: nat)
    requires At(db, m, a, Beats(a, b, t, t), OneRow(a, bad, t), Asked(b, batch, t, Some(t)), None) && a != b
    ensures At(Recorded(db, m, Failure(b, bad, VERIFICATION, t)), m, a, Beats(a, b, t, t),
               BothRows(a, b, bad, t), Asked(b, batch, t, Some(t)), None)
  {
    RecordedEffect(db, m, Failure(b, bad, VERIFICATION, t));
  }

  lemma BothReporters(db: Db, m: MonitorId, a: Region, b: Region, t: int, bad: Status, batch: nat)
    requires At(db, m, a, Beats(a, b, t, t), BothRows(a, b, bad, t), Asked(b, batch, t, Some(t)), None) && a != b
    ensures Reporters(db, m, t) == {a, b} && Pending(db, m, t) == {}
  {
    assert b in Active(db, t);
    assert Reporters(db, m, t) == {a, b};
  }

  lemma BothReport(db: Db, m: MonitorId, a: Region, b: Region, t: int, bad: Status, batch: nat)
    requires At(db, m, a, Beats(a, b, t, t), BothRows(a, b, bad, t), Asked(b, batch, t, Some(t)), None)
    requires a != b && bad != UP
    ensures Majority(db, m, t) && Worst(db, m, t) == bad
  {
    BothReporters(db, m, a, b, t, bad, batch);
    assert Unhealthy(db, m, t) == {a, b} && Electorate(db, m, t) == {a, b};
    assert a in Unhealthy(db, m, t);
  }

  /** The confirmation opens the incident. */
  lemma Confirmation(db: Db, m: MonitorId, a: Region, b: Region, t: int, bad: Status, batch: nat)
    requires At(db, m, a, Beats(a, b, t, t), OneRow(a, bad, t), Asked(b, batch, t, Some(t)), None)
    requires a != b && bad != UP
    ensures var o := RecordCheck(db, m, Failure(b, bad, VERIFICATION, t));
      && o.transition == Opened
      && At(o.db, m, a, Beats(a, b, t, t), BothRows(a, b, bad, t), Asked(b, batch, t, Some(t)), Some(bad))
      && o.db.requests == db.requests
  {
    var c := Failure(b, bad, VERIFICATION, t);
    var db1 := Recorded(db, m, c);
    ConfirmationRecorded(db, m, a, b, t, bad, batch);
    BothReport(db1, m, a, b, t, bad, batch);
    EvaluateEffect(db1, m, EvaluationOf(c), m);
    EvaluateStatus(db1, m, EvaluationOf(c));
    EvaluateCases(db1, m, EvaluationOf(c), m);
  }

  const LATER: int := 200 * SECOND

  lemma LaterLone(db: Db, m: MonitorId, a: Region, b: Region, t: int, bad: Status)
    requires At(db, m, a, Beats(a, b, t + LATER, t + LATER), BothRows(a, b, bad, t), map[], Some(bad))
    requires a != b && bad != UP
    ensures LoneFailure(db, m, Failure(a, bad, SCHEDULED, t + LATER)) && b in Active(db, t + LATER)
  {
    assert !IsFresh(RowsOf(db.statuses, m)[b], t + LATER, FreshWindow(db.config, db.config.monitors[m]));
  }

  lemma ResolvedIsClosed(db: Db, m: MonitorId, c: Check)
    requires Valid(db) && RecordCheck(db, m, c).transition == Resolved
    ensures OpenStatus(RecordCheck(db, m, c).db.incidents, m) == None
  {
    if m in db.config.monitors {
      RecordedEffect(db, m, c);
      EvaluateEffect(Recorded(db, m, c), m, EvaluationOf(c), m);
    }
  }

  /** The failure 200 seconds on resolves the incident, and a re-evaluation opens the next. */
  lemma LaterFailure(db: Db, m: MonitorId, a: Region, b: Region, t: int, bad: Status)
    requires At(db, m, a, Beats(a, b, t + LATER, t + LATER), BothRows(a, b, bad, t), map[], Some(bad))
    requires a != b && bad != UP
    ensures var o := RecordCheck(db, m, Failure(a, bad, SCHEDULED, t + LATER));
      var again := Evaluate(o.db, m, SweepEvaluation(t + LATER, false));
      && o.transition == Resolved && OpenStatus(o.db.incidents, m) == None
      && again.transition == Opened && OpenStatus(again.db.incidents, m) == Some(bad)
  {
    var c := Failure(a, bad, SCHEDULED, t + LATER);
    LaterLone(db, m, a, b, t, bad);
    FailingCheckFlaps(db, m, c, b, SweepEvaluation(t + LATER, false));
    ResolvedIsClosed(db, m, c);
  }

  // ---------- The run and its history ----------

  lemma LogCons(db: Db, s: Step, rest: seq<Step>, m: MonitorId)
    ensures var t, db1 := Reported(db, s, m), Next(db, s);
      Log(db, [s] + rest, m) ==
      (if t == Nothing then [] else [Entry(t, OpenStatus(db1.incidents, m))]) + Log(db1, rest, m)
  {
    assert ([s] + rest)[1..] == rest;
  }

  /** The monitors that a step's expiry sweep returns, each to be re-evaluated once. */
  function Returned(db: Db, s: Step): multiset<MonitorId> {
    if s.ExpireRequests? then multiset(MonitorsOf(ExpiredRows(db.requests, s.now, s.locked))) else multiset{}
  }

  /** Every re-evaluation of the run is owed to a sweep that returned its monitor. */
  ghost predicate Backed(db: Db, steps: seq<Step>, owed: multiset<MonitorId>)
    decreases |steps|
  {
    steps == [] ||
    var s, db1, rest := steps[0], Next(db, steps[0]), steps[1..];
    if s.ReEvaluate? then owed[s.m] > 0 && Backed(db1, rest, owed - multiset{s.m})
    else Backed(db1, rest, owed + Returned(db, s))
  }

  lemma BackedCons(db: Db, s: Step, rest: seq<Step>, owed: multiset<MonitorId>)
    ensures Backed(db, [s] + rest, owed) <==>
      if s.ReEvaluate? then owed[s.m] > 0 && Backed(Next(db, s), rest, owed - multiset{s.m})
      else Backed(Next(db, s), rest, owed + Returned(db, s))
  {
    assert ([s] + rest)[1..] == rest;
  }

  lemma QuietLog(db: Db, s: Step, rest: seq<Step>, m: MonitorId)
    requires Reported(db, s, m) == Nothing
    ensures Log(db, [s] + rest, m) == Log(Next(db, s), rest, m)
  {
    LogCons(db, s, rest, m);
  }

  /** Steps other than sweeps and re-evaluations owe nothing and settle nothing. */
  lemma QuietBacked(db: Db, s: Step, rest: seq<Step>, owed: multiset<MonitorId>)
    requires !s.ReEvaluate? && !s.ExpireRequests?
    ensures Backed(db, [s] + rest, owed) <==> Backed(Next(db, s), rest, owed)
  {
    BackedCons(db, s, rest, owed);
    assert owed + Returned(db, s) == owed;
  }

  /** Both regions are alive and a fails. */
  function Outage(m: MonitorId, a: Region, b: Region, t: int, bad: Status): seq<Step> {
    [Heartbeat(a, t)] + ([Heartbeat(b, t)] + Failing(m, a, b, t, bad))
  }

  /** b claims the request and confirms; that it then fails to delete the request is only logged. */
  function Failing(m: MonitorId, a: Region, b: Region, t: int, bad: Status): seq<Step> {
    [Recheck(m, Failure(a, bad, SCHEDULED, t))] + ([Claim(b, t, {m})] + Confirming(m, a, b, t, bad))
  }

  function Confirming(m: MonitorId, a: Region, b: Region, t: int, bad: Status): seq<Step> {
    [Recheck(m, Failure(b, bad, VERIFICATION, t))] + Waning(m, a, b, t, bad)
  }

  function Waning(m: MonitorId, a: Region, b: Region, t: int, bad: Status): seq<Step> {
    [Heartbeat(a, t + LATER)] + ([Heartbeat(b, t + LATER)] + Sweeping(m, a, t, bad))
  }

  /**
   * 200 seconds on, a sweep deletes the expired request and returns m; before the same sweep
   * re-evaluates m, a fails again.
   */
  function Sweeping(m: MonitorId, a: Region, t: int, bad: Status): seq<Step> {
    [ExpireRequests(t + LATER, {})] + Flapping(m, a, t, bad)
  }

  function Flapping(m: MonitorId, a: Region, t: int, bad: Status): seq<Step> {
    [Recheck(m, Failure(a, bad, SCHEDULED, t + LATER))] + [ReEvaluate(m, t + LATER, false)]
  }

  // ---------- Its log ----------

  lemma SweepLog(db: Db, m: MonitorId, now: int)
    ensures var o := Evaluate(db, m, SweepEvaluation(now, false));
      Log(db, [ReEvaluate(m, now, false)], m) ==
      if o.transition == Nothing then [] else [Entry(o.transition, OpenStatus(o.db.incidents, m))]
  {
    assert [ReEvaluate(m, now, false)] + [] == [ReEvaluate(m, now, false)];
    LogCons(db, ReEvaluate(m, now, false), [], m);
  }

  function Line(t: Transition, open: Option<Status>): seq<Entry> { if t == Nothing then [] else [Entry(t, open)] }

  lemma CheckThenSweepLog(db: Db, m: MonitorId, c: Check, now: int)
    ensures var o := RecordCheck(db, m, c); var again := Evaluate(o.db, m, SweepEvaluation(now, false));
      Log(db, [Recheck(m, c)] + [ReEvaluate(m, now, false)], m) ==
      Line(o.transition, OpenStatus(o.db.incidents, m)) + Line(again.transition, OpenStatus(again.db.incidents, m))
  {
    SweepLog(RecordCheck(db, m, c).db, m, now);
    LogCons(db, Recheck(m, c), [ReEvaluate(m, now, false)], m);
  }

  lemma TwoLines(t: Transition, o: Option<Status>, t': Transition, o': Option<Status>)
    requires t != Nothing && t' != Nothing
    ensures Line(t, o) + Line(t', o') == [Entry(t, o), Entry(t', o')]
  {
  }

  lemma FlappingLog(db: Db, m: MonitorId, a: Region, b: Region, t: int, bad: Status)
    requires At(db, m, a, Beats(a, b, t + LATER, t + LATER), BothRows(a, b, bad, t), map[], Some(bad))
    requires a != b && bad != UP
    ensures Log(db, Flapping(m, a, t, bad), m) == [Entry(Resolved, None), Entry(Opened, Some(bad))]
  {
    LaterFailure(db, m, a, b, t, bad);
    TwoLines(Resolved, None, Opened, Some(bad));
    CheckThenSweepLog(db, m, Failure(a, bad, SCHEDULED, t + LATER), t + LATER);
  }

  /** The sweep deletes m's request and changes nothing else of m. */
  lemma SweepQuiet(db: Db, m: MonitorId, a: Region, b: Region, t: int, bad: Status, batch: nat)
    requires At(db, m, a, Beats(a, b, t + LATER, t + LATER), BothRows(a, b, bad, t),
                Asked(b, batch, t, Some(t)), Some(bad))
    ensures At(Next(db, ExpireRequests(t + LATER, {})), m, a,
               Beats(a, b, t + LATER, t + LATER), BothRows(a, b, bad, t), map[], Some(bad))
  {
    assert b in RowsOf(db.requests, m);
    assert db.requests[m] == Asked(b, batch, t, Some(t));
    assert Unexpired(db.requests, t + LATER, {})[m] == map[];
  }

  lemma SweepingLog(db: Db, m: MonitorId, a: Region, b: Region, t: int, bad: Status, batch: nat)
    requires At(db, m, a, Beats(a, b, t + LATER, t + LATER), BothRows(a, b, bad, t),
                Asked(b, batch, t, Some(t)), Some(bad))
    requires a != b && bad != UP
    ensures Log(db, Sweeping(m, a, t, bad), m) == [Entry(Resolved, None), Entry(Opened, Some(bad))]
  {
    var sweep := ExpireRequests(t + LATER, {});
    SweepQuiet(db, m, a, b, t, bad, batch);
    FlappingLog(Next(db, sweep), m, a, b, t, bad);
    QuietLog(db, sweep, Flapping(m, a, t, bad), m);
  }

  /** Two heartbeats change nothing else. */
  lemma BeatingLog(db: Db, a: Region, b: Region, t: int, rest: seq<Step>, m: MonitorId) returns (db': Db)
    ensures db' == db.(heartbeats := db.heartbeats[a := t][b := t])
    ensures Log(db, [Heartbeat(a, t)] + ([Heartbeat(b, t)] + rest), m) == Log(db', rest, m)
  {
    QuietLog(db, Heartbeat(a, t), [Heartbeat(b, t)] + rest, m);
    QuietLog(Next(db, Heartbeat(a, t)), Heartbeat(b, t), rest, m);
    db' := db.(heartbeats := db.heartbeats[a := t][b := t]);
  }

  lemma BeatsLater(db: Db, m: MonitorId, a: Region, b: Region, t: int, bad: Status, batch: nat)
    requires At(db, m, a, Beats(a, b, t, t), BothRows(a, b, bad, t), Asked(b, batch, t, Some(t)), Some(bad))
    ensures At(db.(heartbeats := db.heartbeats[a := t + LATER][b := t + LATER]), m, a,
               Beats(a, b, t + LATER, t + LATER), BothRows(a, b, bad, t), Asked(b, batch, t, Some(t)), Some(bad))
  {
    assert Beats(a, b, t, t)[a := t + LATER][b := t + LATER] == Beats(a, b, t + LATER, t + LATER);
  }

  lemma WaningLog(db: Db, m: MonitorId, a: Region, b: Region, t: int, bad: Status, batch: nat)
    requires At(db, m, a, Beats(a, b, t, t), BothRows(a, b, bad, t), Asked(b, batch, t, Some(t)), Some(bad))
    requires a != b && bad != UP
    ensures Log(db, Waning(m, a, b, t, bad), m) == [Entry(Resolved, None), Entry(Opened, Some(bad))]
  {
    BeatsLater(db, m, a, b, t, bad, batch);
    var db' := BeatingLog(db, a, b, t + LATER, Sweeping(m, a, t, bad), m);
    SweepingLog(db', m, a, b, t, bad, batch);
  }

  lemma ConfirmingLog(db: Db, m: MonitorId, a: Region, b: Region, t: int, bad: Status, batch: nat)
    requires At(db, m, a, Beats(a, b, t, t), OneRow(a, bad, t), Asked(b, batch, t, Some(t)), None)
    requires a != b && bad != UP
    ensures Log(db, Confirming(m, a, b, t, bad), m) == FlappingHistory(bad)
  {
    var c := Failure(b, bad, VERIFICATION, t);
    Confirmation(db, m, a, b, t, bad, batch);
    WaningLog(RecordCheck(db, m, c).db, m, a, b, t, bad, batch);
    LogCons(db, Recheck(m, c), Waning(m, a, b, t, bad), m);
  }

  function FlappingHistory(bad: Status): seq<Entry> {
    [Entry(Opened, Some(bad)), Entry(Resolved, None), Entry(Opened, Some(bad))]
  }

  lemma ClaimedTable(requests: map<MonitorId, map<Region, Request>>, m: MonitorId, b: Region, batch: nat, t: int)
    requires RowsOf(requests, m) == Asked(b, batch, t, None)
    ensures var claimed := ClaimRequests(requests, b, t, {m});
      RowsOf(claimed, m) == Asked(b, batch, t, Some(t)) && claimed.Keys == requests.Keys
  {
    assert b in RowsOf(requests, m);
    assert requests[m] == Asked(b, batch, t, None);
  }

  /** The claim only marks the request. */
  lemma ClaimQuiet(db: Db, m: MonitorId, a: Region, b: Region, t: int, bad: Status, batch: nat)
    requires At(db, m, a, Beats(a, b, t, t), OneRow(a, bad, t), Asked(b, batch, t, None), None)
    ensures At(Next(db, Claim(b, t, {m})), m, a, Beats(a, b, t, t), OneRow(a, bad, t),
               Asked(b, batch, t, Some(t)), None)
    ensures Next(db, Claim(b, t, {m})).requests.Keys == db.requests.Keys
  {
    ClaimedTable(db.requests, m, b, batch, t);
  }

  lemma ClaimingLog(db: Db, m: MonitorId, a: Region, b: Region, t: int, bad: Status, batch: nat)
    requires At(db, m, a, Beats(a, b, t, t), OneRow(a, bad, t), Asked(b, batch, t, None), None) && a != b && bad != UP
    ensures Log(db, [Claim(b, t, {m})] + Confirming(m, a, b, t, bad), m) == FlappingHistory(bad)
  {
    ClaimQuiet(db, m, a, b, t, bad, batch);
    ConfirmingLog(Next(db, Claim(b, t, {m})), m, a, b, t, bad, batch);
    QuietLog(db, Claim(b, t, {m}), Confirming(m, a, b, t, bad), m);
  }

  lemma FailingLog(db: Db, m: MonitorId, a: Region, b: Region, t: int, bad: Status)
    requires At(db, m, a, Beats(a, b, t, t), map[], map[], None) && a != b && bad != UP
    ensures Log(db, Failing(m, a, b, t, bad), m) == FlappingHistory(bad)
  {
    var c := Failure(a, bad, SCHEDULED, t);
    FirstFailure(db, m, a, b, t, bad);
    ClaimingLog(RecordCheck(db, m, c).db, m, a, b, t, bad, db.nextId);
    QuietLog(db, Recheck(m, c), [Claim(b, t, {m})] + Confirming(m, a, b, t, bad), m);
  }

  // ---------- Its sweep ----------

  lemma FlappingBacked(db: Db, m: MonitorId, a: Region, t: int, bad: Status)
    ensures Backed(db, Flapping(m, a, t, bad), multiset{m})
  {
    var c, again := Failure(a, bad, SCHEDULED, t + LATER), ReEvaluate(m, t + LATER, false);
    assert [again] + [] == [again];
    BackedCons(Next(db, Recheck(m, c)), again, [], multiset{m});
    QuietBacked(db, Recheck(m, c), [again], multiset{m});
  }

  /** Requests of m alone, all expired by the later sweep. */
  predicate OnlyAsked(requests: map<MonitorId, map<Region, Request>>, m: MonitorId, b: Region, t: int) {
    requests.Keys == {m} && requests[m].Keys == {b} && requests[m][b].expiresAt <= t + LATER
  }

  lemma SweepReturns(db: Db, m: MonitorId, b: Region, t: int)
    requires OnlyAsked(db.requests, m, b, t)
    ensures Returned(db, ExpireRequests(t + LATER, {})) == multiset{m}
  {
    assert ExpiredRows(db.requests, t + LATER, {}) == {(m, b)};
    assert MonitorsOf({(m, b)}) == {m};
  }

  lemma WaningBacked(db: Db, m: MonitorId, a: Region, b: Region, t: int, bad: Status)
    requires OnlyAsked(db.requests, m, b, t)
    ensures Backed(db, Waning(m, a, b, t, bad), multiset{})
  {
    var h1, h2, sweep := Heartbeat(a, t + LATER), Heartbeat(b, t + LATER), ExpireRequests(t + LATER, {});
    var db2 := Next(Next(db, h1), h2);
    SweepReturns(db2, m, b, t);
    FlappingBacked(Next(db2, sweep), m, a, t, bad);
    assert multiset{} + multiset{m} == multiset{m};
    BackedCons(db2, sweep, Flapping(m, a, t, bad), multiset{});
    QuietBacked(Next(db, h1), h2, Sweeping(m, a, t, bad), multiset{});
    QuietBacked(db, h1, [h2] + Sweeping(m, a, t, bad), multiset{});
  }

  lemma ConfirmingBacked(db: Db, m: MonitorId, a: Region, b: Region, t: int, bad: Status)
    requires OnlyAsked(RecordCheck(db, m, Failure(b, bad, VERIFICATION, t)).db.requests, m, b, t)
    ensures Backed(db, Confirming(m, a, b, t, bad), multiset{})
  {
    var check := Recheck(m, Failure(b, bad, VERIFICATION, t));
    WaningBacked(Next(db, check), m, a, b, t, bad);
    QuietBacked(db, check, Waning(m, a, b, t, bad), multiset{});
  }

  lemma StillAsked(db: Db, m: MonitorId, a: Region, b: Region, t: int, bad: Status, batch: nat)
    requires At(db, m, a, Beats(a, b, t, t), OneRow(a, bad, t), Asked(b, batch, t, Some(t)), None)
    requires db.requests.Keys == {m} && a != b && bad != UP
    ensures OnlyAsked(RecordCheck(db, m, Failure(b, bad, VERIFICATION, t)).db.requests, m, b, t)
  {
    Confirmation(db, m, a, b, t, bad, batch);
    assert db.requests[m] == Asked(b, batch, t, Some(t));
  }

  lemma ClaimingBacked(db: Db, m: MonitorId, a: Region, b: Region, t: int, bad: Status, batch: nat)
    requires At(db, m, a, Beats(a, b, t, t), OneRow(a, bad, t), Asked(b, batch, t, None), None)
    requires db.requests.Keys == {m} && a != b && bad != UP
    ensures Backed(db, [Claim(b, t, {m})] + Confirming(m, a, b, t, bad), multiset{})
  {
    var db1 := Next(db, Claim(b, t, {m}));
    ClaimQuiet(db, m, a, b, t, bad, batch);
    StillAsked(db1, m, a, b, t, bad, batch);
    ConfirmingBacked(db1, m, a, b, t, bad);
    QuietBacked(db, Claim(b, t, {m}), Confirming(m, a, b, t, bad), multiset{});
  }

  lemma FailingBacked(db: Db, m: MonitorId, a: Region, b: Region, t: int, bad: Status)
    requires At(db, m, a, Beats(a, b, t, t), map[], map[], None) && db.requests == map[] && a != b && bad != UP
    ensures Backed(db, Failing(m, a, b, t, bad), multiset{})
  {
    var check := Recheck(m, Failure(a, bad, SCHEDULED, t));
    FirstFailure(db, m, a, b, t, bad);
    ClaimingBacked(Next(db, check), m, a, b, t, bad, db.nextId);
    QuietBacked(db, check, [Claim(b, t, {m})] + Confirming(m, a, b, t, bad), multiset{});
  }

  // ---------- The theorem ----------

  ghost predicate EmptyTables(db: Db) {
    db.heartbeats == map[] && db.statuses == map[] && db.requests == map[] && db.incidents == map[]
  }

  lemma BothAlive(db: Db, m: MonitorId, a: Region, b: Region, t: int)
    requires EmptyTables(db) && m in db.config.monitors && db.config.monitors[m].regions == [a]
    ensures At(db.(heartbeats := db.heartbeats[a := t][b := t]), m, a, Beats(a, b, t, t), map[], map[], None)
  {
  }

  lemma OutageIsBacked(db: Db, m: MonitorId, a: Region, b: Region, t: int, bad: Status)
    requires EmptyTables(db) && m in db.config.monitors && db.config.monitors[m].regions == [a] && a != b && bad != UP
    ensures Backed(db, Outage(m, a, b, t, bad), multiset{})
  {
    var h1, h2 := Heartbeat(a, t), Heartbeat(b, t);
    BothAlive(db, m, a, b, t);
    FailingBacked(Next(Next(db, h1), h2), m, a, b, t, bad);
    QuietBacked(Next(db, h1), h2, Failing(m, a, b, t, bad), multiset{});
    QuietBacked(db, h1, [h2] + Failing(m, a, b, t, bad), multiset{});
  }

  lemma OutageLog(db: Db, m: MonitorId, a: Region, b: Region, t: int, bad: Status)
    requires EmptyTables(db) && m in db.config.monitors && db.config.monitors[m].regions == [a] && a != b && bad != UP
    ensures Log(db, Outage(m, a, b, t, bad), m) == FlappingHistory(bad)
  {
    BothAlive(db, m, a, b, t);
    var db' := BeatingLog(db, a, b, t, Failing(m, a, b, t, bad), m);
    FailingLog(db', m, a, b, t, bad);
  }

  /**
   * From empty tables, for every monitor with one region, every second region, clock and severity:
   * one unbroken outage is logged as opened, resolved and opened again, in a run whose only
   * re-evaluation is owed to a sweep that returned the monitor.
   */
  lemma OutageFlaps(db: Db, m: MonitorId, a: Region, b: Region, t: int, bad: Status)
    requires EmptyTables(db) && m in db.config.monitors && db.config.monitors[m].regions == [a] && a != b && bad != UP
    ensures Log(db, Outage(m, a, b, t, bad), m) ==
            [Entry(Opened, Some(bad)), Entry(Resolved, None), Entry(Opened, Some(bad))]
    ensures Backed(db, Outage(m, a, b, t, bad), multiset{})
  {
    OutageLog(db, m, a, b, t, bad);
    OutageIsBacked(db, m, a, b, t, bad);
  }
}
