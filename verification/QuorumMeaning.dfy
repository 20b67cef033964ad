/**
 * The quorum decision said over the tables: who votes, what an incident and its announcement hold,
 * and what recording a check writes, with every duration in milliseconds written out.
 */
module QuorumMeaning {
  import opened Types
  import opened Plans
  import opened Quorum
  import opened QuorumRuns
  import opened QuorumLaws

  // ---------- Who votes ----------

  predicate Alive(db: Db, r: Region, now: int) { r in db.heartbeats && db.heartbeats[r] >= now - 60_000 }

  /** The check interval in seconds: the override, or the minimum of the payer's plan. */
  function Interval(c: Config, mon: Monitor): nat {
    if mon.interval.Some? then mon.interval.value
    else if PlanOf(c.subscriptions, PayerOf(c.orgOwner, mon.user, mon.org)) == FREE then 300 else 60
  }

  /** A report no older than three intervals, or 120 seconds for a confirmation, from a live or configured region. */
  predicate Voter(db: Db, m: MonitorId, r: Region, now: int)
    requires m in db.config.monitors
  {
    var rows, mon := RowsOf(db.statuses, m), db.config.monitors[m];
    && r in rows && (Alive(db, r, now) || r in mon.regions)
    && rows[r].checkedAt >= now - if rows[r].source == VERIFICATION then 120_000 else 3_000 * Interval(db.config, mon)
  }

  /** A live region that was asked, has not expired and does not vote yet. */
  predicate Awaited(db: Db, m: MonitorId, r: Region, now: int)
    requires m in db.config.monitors
  {
    var reqs := RowsOf(db.requests, m);
    r in reqs && reqs[r].expiresAt >= now && Alive(db, r, now) && !Voter(db, m, r, now)
  }

  predicate VotesAgainst(db: Db, m: MonitorId, r: Region, now: int)
    requires m in db.config.monitors
  {
    Voter(db, m, r, now) && RowsOf(db.statuses, m)[r].status != UP
  }

  lemma WindowExact(c: Config, mon: Monitor)
    ensures FreshWindow(c, mon) == 3_000 * Interval(c, mon)
  {
  }

  lemma VotesExact(db: Db, m: MonitorId, now: int, r: Region)
    requires m in db.config.monitors
    ensures r in Reporters(db, m, now) <==> Voter(db, m, r, now)
    ensures r in Pending(db, m, now) <==> Awaited(db, m, r, now)
    ensures r in Unhealthy(db, m, now) <==> VotesAgainst(db, m, r, now)
  {
    WindowExact(db.config, db.config.monitors[m]);
    assert r in Active(db, now) <==> Alive(db, r, now);
  }

  /** Exactly the regions that vote unhealthy, and exactly those that vote or are awaited. */
  ghost predicate Counts(db: Db, m: MonitorId, now: int, failing: set<Region>, counted: set<Region>)
    requires m in db.config.monitors
  {
    && (forall r :: r in failing <==> VotesAgainst(db, m, r, now))
    && (forall r :: r in counted <==> Voter(db, m, r, now) || Awaited(db, m, r, now))
  }

  lemma CountsExact(db: Db, m: MonitorId, now: int, failing: set<Region>, counted: set<Region>)
    requires m in db.config.monitors && Counts(db, m, now, failing, counted)
    ensures failing == Unhealthy(db, m, now) && counted == Electorate(db, m, now)
  {
    forall r ensures r in failing <==> r in Unhealthy(db, m, now) {
      VotesExact(db, m, now, r);
    }
    forall r ensures r in counted <==> r in Electorate(db, m, now) {
      VotesExact(db, m, now, r);
    }
  }

  // ---------- The decision ----------

  /** DOWN if the incident was DOWN or somebody votes DOWN, else DEGRADED. */
  function Severity(db: Db, m: MonitorId, was: Option<Status>, failing: set<Region>): Status {
    var rows := RowsOf(db.statuses, m);
    if was == Some(DOWN) || exists r :: r in failing && r in rows && rows[r].status == DOWN then DOWN else DEGRADED
  }

  /** An incident is left open if and only if more than half of the counted regions fail, with that severity. */
  lemma DecisionExact(db: Db, m: MonitorId, e: Evaluation, failing: set<Region>, counted: set<Region>)
    requires Valid(db) && m in db.config.monitors && Counts(db, m, e.now, failing, counted)
    ensures OpenStatus(Evaluate(db, m, e).db.incidents, m) ==
      if 2 * |failing| > |counted| then Some(Severity(db, m, OpenStatus(db.incidents, m), failing)) else None
  {
    CountsExact(db, m, e.now, failing, counted);
    EvaluateStatus(db, m, e);
    WorstExact(db, m, e.now);
    OpenIsBad(db.incidents, db.nextId, m);
  }

  lemma WorstExact(db: Db, m: MonitorId, now: int)
    requires m in db.config.monitors
    ensures Worst(db, m, now) == Severity(db, m, None, Unhealthy(db, m, now))
  {
  }

  // ---------- The incident row ----------

  /** The text of an unhealthy decision: both counts and the failing reports. */
  function Summary(db: Db, m: MonitorId, failing: set<Region>, counted: set<Region>): Text {
    var rows := RowsOf(db.statuses, m);
    QuorumText(|failing|, |counted|, map r | r in failing && r in rows :: rows[r])
  }

  /** When an announcement goes out the incident is stamped with its time. */
  function Stamp(db: Db, m: MonitorId, e: Evaluation, announced: bool, before: Option<int>): Option<int>
    requires m in db.config.monitors
  {
    var reached := AlertSources(db.config, m, db.config.monitors[m]);
    if announced && !e.suppressed && reached != {} then Some(e.now) else before
  }

  lemma AnnounceStamps(db: Db, m: MonitorId, e: Evaluation, t: Transition, i: nat, status: Status, text: Text)
    requires m in db.config.monitors && i in db.incidents
    ensures var o := Announce(db, m, e, t, i, status, text);
      var stamp := Stamp(db, m, e, true, db.incidents[i].lastAlertAt);
      o.db.incidents == db.incidents[i := db.incidents[i].(lastAlertAt := stamp)]
  {
    var rows := AlertRows(db.config, m, status, text, e.statusCode, e.latency, e.now);
    assert rows.Keys == AlertSources(db.config, m, db.config.monitors[m]);
    assert rows == map[] <==> rows.Keys == {};
    assert db.incidents == db.incidents[i := db.incidents[i].(lastAlertAt := db.incidents[i].lastAlertAt)];
  }

  lemma FiguresExact(db: Db, m: MonitorId, now: int, failing: set<Region>, counted: set<Region>)
    requires m in db.config.monitors && Counts(db, m, now, failing, counted)
    ensures Majority(db, m, now) <==> 2 * |failing| > |counted|
    ensures Worst(db, m, now) == Severity(db, m, None, failing)
    ensures Reports(db, m, now) == Summary(db, m, failing, counted)
  {
    CountsExact(db, m, now, failing, counted);
    WorstExact(db, m, now);
  }

  lemma OpenedIncidents(db: Db, m: MonitorId, e: Evaluation, worst: Status, text: Text)
    requires m in db.config.monitors
    ensures var o := Announce(OpenedDb(db, m, e, worst, text), m, e, Opened, db.nextId, worst, text);
      && o.transition == Opened && o.incident == Some(db.nextId)
      && o.db.incidents == db.incidents[db.nextId :=
           Incident(m, worst, e.statusCode, text, e.now, None, Stamp(db, m, e, true, None))]
  {
    AnnounceStamps(OpenedDb(db, m, e, worst, text), m, e, Opened, db.nextId, worst, text);
  }

  /** A new incident: whose, how bad, with what code and text, since when. */
  lemma OpenedRow(db: Db, m: MonitorId, e: Evaluation, failing: set<Region>, counted: set<Region>)
    requires Valid(db) && m in db.config.monitors && Counts(db, m, e.now, failing, counted)
    requires 2 * |failing| > |counted| && OpenStatus(db.incidents, m).None?
    ensures var o := Evaluate(db, m, e);
      && o.transition == Opened && o.incident == Some(db.nextId)
      && o.db.incidents == db.incidents[db.nextId :=
           Incident(m, Severity(db, m, None, failing), e.statusCode, Summary(db, m, failing, counted), e.now, None,
                    Stamp(db, m, e, true, None))]
  {
    FiguresExact(db, m, e.now, failing, counted);
    OpenedIncidents(db, m, e, Worst(db, m, e.now), Reports(db, m, e.now));
  }

  /** The row after a refresh to some severity and text. */
  function RefreshedTo(was: Incident, severity: Status, text: Text, code: Option<int>, stamp: Option<int>): Incident {
    was.(status := severity, message := text, statusCode := if code.Some? then code else was.statusCode,
         lastAlertAt := stamp)
  }

  lemma RefreshedIncidents(db: Db, m: MonitorId, e: Evaluation, i: nat, worst: Status, text: Text)
    requires m in db.config.monitors && i in db.incidents
    ensures var db1, was := RefreshedDb(db, e, i, worst, text), db.incidents[i];
      var severity := StickyStatus(was.status, worst);
      && db1.incidents[i].status == severity
      && db1.incidents == db.incidents[i := RefreshedTo(was, severity, text, e.statusCode, was.lastAlertAt)]
      && Announce(db1, m, e, Escalated, i, severity, text).db.incidents ==
           db.incidents[i := RefreshedTo(was, severity, text, e.statusCode, Stamp(db, m, e, true, was.lastAlertAt))]
  {
    var db1 := RefreshedDb(db, e, i, worst, text);
    AnnounceStamps(db1, m, e, Escalated, i, db1.incidents[i].status, text);
  }

  lemma StickyExact(db: Db, m: MonitorId, was: Status, failing: set<Region>)
    requires was != UP
    ensures StickyStatus(was, Severity(db, m, None, failing)) == Severity(db, m, Some(was), failing)
  {
  }

  /** A refreshed incident keeps its start; its severity only gets worse, and a new code replaces the old. */
  lemma RefreshedRow(db: Db, m: MonitorId, e: Evaluation, failing: set<Region>, counted: set<Region>, i: nat)
    requires Valid(db) && m in db.config.monitors && Counts(db, m, e.now, failing, counted)
    requires 2 * |failing| > |counted| && IsOpen(db.incidents, i, m)
    ensures var o, was := Evaluate(db, m, e), db.incidents[i];
      var severity := Severity(db, m, Some(was.status), failing);
      && o.transition == (if severity == was.status then Nothing else Escalated)
      && o.db.incidents == db.incidents[i := RefreshedTo(was, severity, Summary(db, m, failing, counted), e.statusCode,
           Stamp(db, m, e, severity != was.status, was.lastAlertAt))]
  {
    FiguresExact(db, m, e.now, failing, counted);
    OpenIsUnique(db.incidents, db.nextId, m, i);
    StickyExact(db, m, db.incidents[i].status, failing);
    RefreshedIncidents(db, m, e, i, Worst(db, m, e.now), Reports(db, m, e.now));
  }

  /** A resolved incident only gets its end. */
  lemma ResolvedRow(db: Db, m: MonitorId, e: Evaluation, failing: set<Region>, counted: set<Region>, i: nat)
    requires Valid(db) && m in db.config.monitors && Counts(db, m, e.now, failing, counted)
    requires 2 * |failing| <= |counted| && IsOpen(db.incidents, i, m)
    ensures var o, was := Evaluate(db, m, e), db.incidents[i];
      && o.transition == Resolved
      && o.db.incidents == db.incidents[i := was.(
           resolvedAt := Some(e.now), lastAlertAt := Stamp(db, m, e, true, was.lastAlertAt))]
  {
    CountsExact(db, m, e.now, failing, counted);
    OpenIsUnique(db.incidents, db.nextId, m, i);
    AnnounceStamps(ResolvedDb(db, m, e, i), m, e, Resolved, i, UP, CheckText(e.upMessage));
  }

  // ---------- Recording a check ----------

  /** The region's report is replaced by the check; whether it is scheduled depends on the monitor's regions. */
  lemma ReportExact(db: Db, m: MonitorId, c: Check)
    requires m in db.config.monitors
    ensures RowsOf(Recorded(db, m, c).statuses, m) == RowsOf(db.statuses, m)[c.region :=
      RegionStatus(c.status, c.latency, c.statusCode, c.message,
                   if c.region in db.config.monitors[m].regions then SCHEDULED else VERIFICATION, c.now)]
    ensures forall k :: k != m ==> RowsOf(Recorded(db, m, c).statuses, k) == RowsOf(db.statuses, k)
  {
  }

  /** A failing scheduled check asks a region: alive, another one, not heard from for 30 seconds, not asked yet. */
  predicate Asks(db: Db, m: MonitorId, c: Check, h: Region) {
    var rows := RowsOf(db.statuses, m);
    && c.source == SCHEDULED && c.status != UP
    && Alive(db, h, c.now) && h != c.region && !(h in rows && rows[h].checkedAt >= c.now - 30_000)
    && h !in RowsOf(db.requests, m)
  }

  lemma RequestsExact(db: Db, m: MonitorId, c: Check, h: Region)
    requires m in db.config.monitors
    ensures var reqs, reqs' := RowsOf(db.requests, m), RowsOf(Recorded(db, m, c).requests, m);
      && (h in reqs' <==> h in reqs || Asks(db, m, c, h))
      && (h in reqs ==> reqs'[h] == reqs[h])
      && (Asks(db, m, c, h) ==> reqs'[h] == Request(db.nextId, c.now, c.now + 60_000, None))
  {
    var db0 := Upsert(db, m, c);
    assert h in Active(db0, c.now) <==> Alive(db, h, c.now);
    if c.source == SCHEDULED && c.status != UP {
      assert h in ToConfirm(db0, m, c.region, c.now) <==> Asks(db, m, c, h);
    }
  }

  /** What a check that moves the incident announces, and to how many. */
  lemma CheckAnnounces(db: Db, m: MonitorId, c: Check) returns (batch: nat)
    requires Valid(db) && m in db.config.monitors && RecordCheck(db, m, c).transition != Nothing
    ensures var o := RecordCheck(db, m, c);
      c.suppressed ==> o.db.outbox == db.outbox
    ensures var o := RecordCheck(db, m, c); var open := OpenStatus(o.db.incidents, m);
      !c.suppressed ==>
        && batch in o.db.outbox && o.db.outbox == db.outbox[batch := o.db.outbox[batch]]
        && o.db.outbox[batch].Keys == AlertSources(db.config, m, db.config.monitors[m])
        && (forall k :: k in o.db.outbox[batch] ==>
              var row := o.db.outbox[batch][k];
              && row.monitor == m && row.status == OrElse(open, UP) && row.statusCode == c.statusCode
              && row.latency == c.latency && row.attempts == 0 && row.nextAttemptAt == c.now
              && (open.None? ==> row.message == CheckText(c.message)))
  {
    RecordedEffect(db, m, c);
    var db1 := Recorded(db, m, c);
    batch := TransitionsAnnounce(db1, m, EvaluationOf(c));
    EvaluateEffect(db1, m, EvaluationOf(c), m);
  }

  /** A claim marks exactly the chosen monitors' unclaimed, unexpired requests to that region. */
  lemma ClaimExact(db: Db, region: Region, now: int, chosen: set<MonitorId>, k: MonitorId, r: Region)
    requires r in RowsOf(db.requests, k)
    ensures var before, reqs := RowsOf(db.requests, k)[r], RowsOf(Next(db, Claim(region, now, chosen)).requests, k);
      && reqs.Keys == RowsOf(db.requests, k).Keys
      && reqs[r] == if k in chosen && r == region && before.claimedAt == None && before.expiresAt > now
                    then before.(claimedAt := Some(now)) else before
  {
  }
}
