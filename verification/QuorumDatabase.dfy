/**
 * The quorum tables as the SQL functions update them, statement by statement, each call proved
 * against the state functions of module Quorum.
 */
module QuorumDatabase {
  import opened Types
  import opened Plans
  import opened Quorum
  import opened QuorumRuns

  /** The selected sets are the electorate, without overlap. */
  lemma SelectedElectorate(db: Db, m: MonitorId, now: int,
                           reporters: set<Region>, pending: set<Region>, failing: set<Region>)
    requires m in db.config.monitors
    requires var rows := RowsOf(db.statuses, m); var reqs := RowsOf(db.requests, m); var mon := db.config.monitors[m];
      && (forall r :: r in reporters <==>
            && r in rows && IsFresh(rows[r], now, FreshWindow(db.config, mon))
            && (r in Active(db, now) || r in mon.regions))
      && (forall r :: r in pending <==>
            r in reqs && reqs[r].expiresAt >= now && r in Active(db, now) && r !in reporters)
      && (forall r :: r in failing <==> r in reporters && rows[r].status != UP)
    ensures reporters == Reporters(db, m, now) && pending == Pending(db, m, now) && failing == Unhealthy(db, m, now)
    ensures |Electorate(db, m, now)| == |reporters| + |pending|
  {
    assert reporters == Reporters(db, m, now);
    assert pending == Pending(db, m, now);
    assert failing == Unhealthy(db, m, now);
    assert reporters !! pending;
  }

  /** The two INSERT ... SELECTs of an announcement: their sources and how many rows they insert. */
  method SelectSources(c: Config, m: MonitorId, mon: Monitor) returns (sources: set<AlertSource>, count: nat)
    ensures sources == AlertSources(c, m, mon)
    ensures count == |sources|
  {
    sources := ChannelSources(c, m, OwnerOf(c, mon));
    count := |sources|;
    var recipients := RecipientSources(c, m, mon);
    if mon.org.Some? {
      assert sources !! recipients;
      count := count + |recipients|;
      sources := sources + recipients;
    } else {
      assert recipients == {};
    }
  }

  /** The monitor has a request that expired and that nobody else has locked. */
  predicate HasExpired(t: map<MonitorId, map<Region, Request>>, now: int, locked: set<(MonitorId, Region)>,
                       k: MonitorId) {
    exists r :: r in RowsOf(t, k) && RowsOf(t, k)[r].expiresAt <= now && (k, r) !in locked
  }

  lemma ExpiredMonitor(t: map<MonitorId, map<Region, Request>>, now: int, locked: set<(MonitorId, Region)>,
                       k: MonitorId)
    ensures k in MonitorsOf(ExpiredRows(t, now, locked)) <==> HasExpired(t, now, locked, k)
  {
    var rows := ExpiredRows(t, now, locked);
    if k in MonitorsOf(rows) {
      var row :| row in rows && row.0 == k;
      assert row.1 in RowsOf(t, k);
    }
    if r :| r in RowsOf(t, k) && RowsOf(t, k)[r].expiresAt <= now && (k, r) !in locked {
      assert (k, r) in rows && (k, r).0 == k;
    }
  }

  /** Without a majority the worst status and the text play no part. */
  lemma UnusedFigures(db: Db, m: MonitorId, e: Evaluation, worst: Status, text: Text, open: Option<nat>)
    requires m in db.config.monitors && (open.Some? ==> open.value in db.incidents)
    ensures forall w, t :: Decided(db, m, e, false, worst, text, open) == Decided(db, m, e, false, w, t, open)
  {
  }

  /** The tables after an announcement that was not suppressed. */
  lemma AnnouncedIs(db: Db, m: MonitorId, e: Evaluation, t: Transition, i: nat, status: Status, text: Text,
                    db': Db, count: nat)
    requires m in db.config.monitors && i in db.incidents && !e.suppressed
    requires var rows := AlertRows(db.config, m, status, text, e.statusCode, e.latency, e.now);
      && db'.outbox == db.outbox[db.nextId := rows] && db'.nextId == db.nextId + 1 && (count == 0 <==> rows == map[])
    requires db'.incidents ==
      if count > 0 then db.incidents[i := db.incidents[i].(lastAlertAt := Some(e.now))] else db.incidents
    requires db'.config == db.config && db'.heartbeats == db.heartbeats
    requires db'.statuses == db.statuses && db'.requests == db.requests
    ensures Outcome(db', t, Some(i)) == Announce(db, m, e, t, i, status, text)
  {
  }

  /** The tables after confirmations were requested. */
  lemma RequestedIs(db: Db, m: MonitorId, c: Check, ask: set<Region>, db': Db)
    requires c.source == SCHEDULED && c.status != UP && ask == ToConfirm(db, m, c.region, c.now)
    requires var asked := map h | h in ask :: Request(db.nextId, c.now, c.now + REQUEST_TTL, None);
      db' == db.(requests := db.requests[m := RowsOf(db.requests, m) + asked], nextId := db.nextId + 1)
    ensures db' == EnqueueConfirmations(db, m, c)
  {
  }

  class Database {
    var config: Config
    var heartbeats: map<Region, int>
    var statuses: map<MonitorId, map<Region, RegionStatus>>
    var requests: map<MonitorId, map<Region, Request>>
    var incidents: map<nat, Incident>
    var outbox: map<nat, map<AlertSource, OutboxRow>>
    var nextId: nat

    ghost function View(): Db
      reads this
    {
      Db(config, heartbeats, statuses, requests, incidents, outbox, nextId)
    }

    constructor (config: Config)
      ensures View() == Db(config, map[], map[], map[], map[], map[], 0)
      ensures Quorum.Valid(View())
    {
      this.config := config;
      heartbeats, statuses, requests, incidents, outbox, nextId := map[], map[], map[], map[], map[], 0;
    }

    /** UpsertRegionHeartbeat. */
    method UpsertHeartbeat(region: Region, now: int)
      modifies this`heartbeats
      ensures View() == Next(old(View()), Heartbeat(region, now))
    {
      heartbeats := heartbeats[region := now];
    }

    /** maintenance.enqueue_monitor_alerts: nothing for a monitor that is gone. */
    method EnqueueMonitorAlerts(m: MonitorId, status: Status, text: Text, statusCode: Option<int>, latency: int,
                                now: int)
      returns (count: nat)
      modifies this`outbox, this`nextId
      ensures m !in config.monitors ==> outbox == old(outbox) && nextId == old(nextId) && count == 0
      ensures m in config.monitors ==>
        var rows := AlertRows(config, m, status, text, statusCode, latency, now);
        && outbox == old(outbox)[old(nextId) := rows] && nextId == old(nextId) + 1
        && count == |rows.Keys| && (count == 0 <==> rows == map[])
    {
      if m !in config.monitors { return 0; }
      var sources;
      sources, count := SelectSources(config, m, config.monitors[m]);
      var rows := RowsFor(config, m, sources, status, text, statusCode, latency, now);
      assert rows.Keys == {} <==> rows == map[];
      outbox := outbox[nextId := rows];
      nextId := nextId + 1;
    }

    /** The announcement at the end of an evaluation, with its maintenance gate and stamp. */
    method AnnounceTransition(m: MonitorId, e: Evaluation, t: Transition, i: nat, status: Status, text: Text)
      requires m in config.monitors && i in incidents
      modifies this`outbox, this`nextId, this`incidents
      ensures Outcome(View(), t, Some(i)) == Announce(old(View()), m, e, t, i, status, text)
    {
      if e.suppressed { return; }
      ghost var db := View();
      var count := EnqueueMonitorAlerts(m, status, text, e.statusCode, e.latency, e.now);
      if count > 0 {
        incidents := incidents[i := incidents[i].(lastAlertAt := Some(e.now))];
      }
      AnnouncedIs(db, m, e, t, i, status, text, View(), count);
    }

    /** SELECT ... WHERE resolved_at IS NULL ORDER BY started_at DESC LIMIT 1. */
    method LatestOpenIncident(m: MonitorId) returns (open: Option<nat>)
      requires Quorum.Valid(View())
      ensures open == OpenIncident(incidents, m)
    {
      if exists i :: i in incidents && IsOpen(incidents, i, m) {
        ghost var only := OpenIncident(incidents, m).value;
        assert only in incidents && IsOpen(incidents, only, m);
        var i :| i in incidents && IsOpen(incidents, i, m)
                 && forall j :: j in incidents && IsOpen(incidents, j, m) ==>
                      incidents[j].startedAt <= incidents[i].startedAt;
        OpenIsUnique(incidents, nextId, m, i);
        open := Some(i);
      } else {
        open := None;
      }
    }

    /** The figures behind the decision: electorate (at least 1), unhealthy reporters, worst status, text. */
    method Tally(m: MonitorId, now: int) returns (total: nat, unhealthy: nat, worst: Status, text: Text)
      requires m in config.monitors
      ensures unhealthy == |Unhealthy(View(), m, now)| && worst == Worst(View(), m, now)
      ensures Electorate(View(), m, now) != {} ==> text == Reports(View(), m, now)
      ensures total == if Electorate(View(), m, now) == {} then 1 else |Electorate(View(), m, now)|
    {
      ghost var db := View();
      var mon := config.monitors[m];
      var owner := mon.user;
      if mon.org.Some? && mon.org.value in config.orgOwner { owner := config.orgOwner[mon.org.value]; }
      var plan := FREE;
      if owner in config.subscriptions && config.subscriptions[owner].status != CANCELED {
        plan := config.subscriptions[owner].plan;
      }
      var window := SqlEffectiveInterval(mon.interval, plan) * STALE_MULTIPLIER * SECOND;
      assert window == FreshWindow(db.config, mon);
      var rows, reqs := RowsOf(statuses, m), RowsOf(requests, m);
      var reporters, pending, failing := Select(rows, reqs, mon.regions, now, window);
      SelectedElectorate(db, m, now, reporters, pending, failing);
      total := |reporters| + |pending|;
      unhealthy := |failing|;
      worst := if exists r :: r in failing && rows[r].status == DOWN then DOWN else DEGRADED;
      text := QuorumText(unhealthy, total, map r | r in failing :: rows[r]);
      if total < 1 { total := 1; }
    }

    /** The common table expressions of the evaluation. */
    method Select(rows: map<Region, RegionStatus>, reqs: map<Region, Request>, regions: seq<Region>, now: int,
                  window: int)
      returns (reporters: set<Region>, pending: set<Region>, failing: set<Region>)
      ensures forall r :: r in reporters <==>
        r in rows && IsFresh(rows[r], now, window) && (r in Active(View(), now) || r in regions)
      ensures forall r :: r in pending <==>
        r in reqs && reqs[r].expiresAt >= now && r in Active(View(), now) && r !in reporters
      ensures forall r :: r in failing <==> r in reporters && rows[r].status != UP
    {
      var active := set r | r in heartbeats && heartbeats[r] >= now - ACTIVE_THRESHOLD;
      assert active == Active(View(), now);
      reporters := set r | r in rows && IsFresh(rows[r], now, window) && (r in active || r in regions);
      pending := set r | r in reqs && reqs[r].expiresAt >= now && r in active && r !in reporters;
      failing := set r | r in reporters && rows[r].status != UP;
    }

    /** A majority with nothing open: insert the incident. */
    method Open(m: MonitorId, e: Evaluation, worst: Status, text: Text) returns (incident: nat)
      modifies this`incidents, this`nextId
      ensures incident == old(nextId) && View() == OpenedDb(old(View()), m, e, worst, text)
    {
      incident := nextId;
      incidents := incidents[nextId := Incident(m, worst, e.statusCode, text, e.now, None, None)];
      nextId := nextId + 1;
    }

    /** A majority with an incident open: refresh it with the sticky worst status. */
    method Refresh(e: Evaluation, i: nat, worst: Status, text: Text) returns (escalated: bool)
      requires i in incidents
      modifies this`incidents
      ensures View() == RefreshedDb(old(View()), e, i, worst, text)
      ensures escalated <==> incidents[i].status != old(incidents)[i].status
    {
      var inc := incidents[i];
      var status := if inc.status == DOWN || worst == DOWN then DOWN else worst;
      var code := if e.statusCode.Some? then e.statusCode else inc.statusCode;
      incidents := incidents[i := inc.(status := status, message := text, statusCode := code)];
      escalated := status != inc.status;
    }

    /** No majority any more: resolve, and purge confirmations and requests. */
    method Resolve(m: MonitorId, e: Evaluation, i: nat)
      requires i in incidents
      modifies this`incidents, this`statuses, this`requests
      ensures View() == ResolvedDb(old(View()), m, e, i)
    {
      incidents := incidents[i := incidents[i].(resolvedAt := Some(e.now))];
      statuses := statuses[m := Purge(RowsOf(statuses, m))];
      requests := requests - {m};
    }

    /** The transition part of the evaluation, given the vote and the open incident. */
    method Transact(m: MonitorId, e: Evaluation, majority: bool, worst: Status, text: Text, open: Option<nat>)
      returns (transition: Transition, incident: Option<nat>)
      requires m in config.monitors && (open.Some? ==> open.value in incidents)
      modifies this
      ensures Outcome(View(), transition, incident) == Decided(old(View()), m, e, majority, worst, text, open)
    {
      transition, incident := Nothing, open;
      if majority && open.None? {
        var i := Open(m, e, worst, text);
        transition, incident := Opened, Some(i);
        AnnounceTransition(m, e, Opened, i, worst, text);
      } else if majority {
        var escalated := Refresh(e, open.value, worst, text);
        if escalated {
          transition := Escalated;
          AnnounceTransition(m, e, Escalated, open.value, incidents[open.value].status, text);
        }
      } else if open.Some? {
        Resolve(m, e, open.value);
        transition := Resolved;
        AnnounceTransition(m, e, Resolved, open.value, UP, CheckText(e.upMessage));
      }
    }

    /** maintenance.evaluate_monitor_quorum. */
    method EvaluateMonitorQuorum(m: MonitorId, e: Evaluation) returns (transition: Transition, incident: Option<nat>)
      requires Quorum.Valid(View())
      modifies this
      ensures Outcome(View(), transition, incident) == Evaluate(old(View()), m, e)
      ensures Quorum.Valid(View()) && config == old(config)
    {
      ghost var db := View();
      transition, incident := Nothing, None;
      if m in config.monitors {
        var total, unhealthy, worst, text := Tally(m, e.now);
        var open := LatestOpenIncident(m);
        var majority := unhealthy * 2 > total;
        transition, incident := Transact(m, e, majority, worst, text, open);
        if majority { assert text == Reports(db, m, e.now); }
        UnusedFigures(db, m, e, worst, text, open);
      }
      EvaluateEffect(db, m, e, m);
    }

    /** maintenance.record_region_check. */
    method RecordRegionCheck(m: MonitorId, c: Check) returns (transition: Transition, incident: Option<nat>)
      requires Quorum.Valid(View())
      modifies this
      ensures Outcome(View(), transition, incident) == RecordCheck(old(View()), m, c)
      ensures Quorum.Valid(View()) && config == old(config)
    {
      ghost var db := View();
      transition, incident := Nothing, None;
      if m !in config.monitors { return; }
      UpsertStatus(m, c);
      if c.source == SCHEDULED && c.status != UP {
        RequestConfirmations(m, c);
      }
      RecordedEffect(db, m, c);
      transition, incident := EvaluateMonitorQuorum(m, EvaluationOf(c));
    }

    /** INSERT INTO monitor_region_status ... ON CONFLICT DO UPDATE. */
    method UpsertStatus(m: MonitorId, c: Check)
      requires m in config.monitors
      modifies this`statuses
      ensures View() == Upsert(old(View()), m, c)
    {
      var rowSource := if c.region in config.monitors[m].regions then SCHEDULED else VERIFICATION;
      var row := RegionStatus(c.status, c.latency, c.statusCode, c.message, rowSource, c.now);
      statuses := statuses[m := RowsOf(statuses, m)[c.region := row]];
    }

    /** INSERT INTO region_verification_requests ... ON CONFLICT DO NOTHING. */
    method RequestConfirmations(m: MonitorId, c: Check)
      requires c.source == SCHEDULED && c.status != UP
      modifies this`requests, this`nextId
      ensures View() == EnqueueConfirmations(old(View()), m, c)
    {
      ghost var db := View();
      var ask := RegionsToAsk(m, c);
      var asked := map h | h in ask :: Request(nextId, c.now, c.now + 60 * SECOND, None);
      requests := requests[m := RowsOf(requests, m) + asked];
      nextId := nextId + 1;
      RequestedIs(db, m, c, ask, View());
    }

    /** Live regions without a recent outcome or an outstanding request. */
    method RegionsToAsk(m: MonitorId, c: Check) returns (ask: set<Region>)
      ensures ask == ToConfirm(View(), m, c.region, c.now)
    {
      var rows, existing := RowsOf(statuses, m), RowsOf(requests, m);
      ask := set h | h in heartbeats && heartbeats[h] >= c.now - 60 * SECOND && h != c.region
                     && !(h in rows && rows[h].checkedAt >= c.now - 30 * SECOND)
                     && h !in existing;
    }

    /** CompleteVerificationRequest. */
    method CompleteVerificationRequest(m: MonitorId, region: Region, batch: nat)
      modifies this`requests
      ensures View() == Next(old(View()), Complete(m, region, batch))
      ensures forall k, r :: r in RowsOf(requests, k) <==>
        r in RowsOf(old(requests), k) && !(k == m && r == region && RowsOf(old(requests), k)[r].batch == batch)
      ensures forall k, r :: r in RowsOf(requests, k) ==> RowsOf(requests, k)[r] == RowsOf(old(requests), k)[r]
    {
      var reqs := RowsOf(requests, m);
      if region in reqs && reqs[region].batch == batch {
        requests := requests[m := reqs - {region}];
      }
    }

    /** ExpireVerificationRequests: delete what expired, return each affected monitor once. */
    method ExpireVerificationRequests(now: int, locked: set<(MonitorId, Region)>) returns (ids: seq<MonitorId>)
      modifies this`requests
      ensures View() == Next(old(View()), ExpireRequests(now, locked))
      ensures forall k, r :: r in RowsOf(requests, k) <==>
        r in RowsOf(old(requests), k) && (RowsOf(old(requests), k)[r].expiresAt > now || (k, r) in locked)
      ensures forall k :: k in ids <==> HasExpired(old(requests), now, locked, k)
      ensures forall i, j :: 0 <= i < j < |ids| ==> ids[i] != ids[j]
      ensures (set m | m in ids) == MonitorsOf(ExpiredRows(old(requests), now, locked))
    {
      forall k ensures k in MonitorsOf(ExpiredRows(requests, now, locked)) <==> HasExpired(requests, now, locked, k) {
        ExpiredMonitor(requests, now, locked, k);
      }
      var returned := Returning(ExpiredRows(requests, now, locked));
      requests := Unexpired(requests, now, locked);
      ids := Distinct(returned);
      assert forall k :: k in ids <==> k in set m | m in ids;
    }
  }

  /** DELETE ... RETURNING monitor_id: one id per deleted row, in any order. */
  method Returning(rows: set<(MonitorId, Region)>) returns (ids: seq<MonitorId>)
    ensures (set m | m in ids) == MonitorsOf(rows) && |ids| == |rows|
  {
    ids := [];
    var todo := rows;
    while todo != {}
      invariant todo <= rows && |ids| == |rows| - |todo|
      invariant (set m | m in ids) == MonitorsOf(rows - todo)
      decreases |todo|
    {
      var row :| row in todo;
      assert rows - (todo - {row}) == (rows - todo) + {row};
      assert MonitorsOf((rows - todo) + {row}) == MonitorsOf(rows - todo) + {row.0};
      ids := ids + [row.0];
      todo := todo - {row};
    }
    assert rows - todo == rows;
  }

  /** The first occurrence of every id. */
  method Distinct(ids: seq<MonitorId>) returns (out: seq<MonitorId>)
    ensures (set m | m in out) == set m | m in ids
    ensures forall i, j :: 0 <= i < j < |out| ==> out[i] != out[j]
  {
    var seen: set<MonitorId> := {};
    out := [];
    for i := 0 to |ids|
      invariant seen == (set m | m in out) == set m | m in ids[..i]
      invariant forall j, k :: 0 <= j < k < |out| ==> out[j] != out[k]
    {
      assert ids[..i + 1] == ids[..i] + [ids[i]];
      if ids[i] !in seen {
        seen := seen + {ids[i]};
        out := out + [ids[i]];
      }
    }
    assert ids[..|ids|] == ids;
  }
}
