/**
 * Laws of single quorum decisions: who is counted, what a repeated evaluation does, when an
 * ongoing outage survives a failing check, and where an announcement goes.
 */
module QuorumLaws {
  import opened Types
  import opened Plans
  import opened Quorum
  import opened QuorumRuns

  // ---------- Who is counted ----------

  /** Before the check: will this other active region be part of the electorate? */
  predicate WillCount(db: Db, m: MonitorId, h: Region, now: int)
    requires m in db.config.monitors
  {
    var rows, reqs := RowsOf(db.statuses, m), RowsOf(db.requests, m);
    || (h in rows && IsFresh(rows[h], now, FreshWindow(db.config, db.config.monitors[m])))
    || (h in reqs && reqs[h].expiresAt >= now)
    || (h !in reqs && !RecentlyChecked(db, m, h, now))
  }

  /** Recording a failing scheduled check counts another active region exactly when WillCount says so. */
  lemma RegionCounted(db: Db, m: MonitorId, c: Check, h: Region)
    requires m in db.config.monitors && c.source == SCHEDULED && c.status != UP
    requires h in Active(db, c.now)
    ensures h in Electorate(Recorded(db, m, c), m, c.now) <==> h == c.region || WillCount(db, m, h, c.now)
  {
    var db0, db1 := Upsert(db, m, c), Recorded(db, m, c);
    assert Active(db1, c.now) == Active(db, c.now);
    var rows, rows1 := RowsOf(db.statuses, m), RowsOf(db1.statuses, m);
    assert rows1.Keys == rows.Keys + {c.region};
    assert h != c.region ==> (h in rows1 <==> h in rows) && (h in rows ==> rows1[h] == rows[h]);
    var reqs, reqs1 := RowsOf(db.requests, m), RowsOf(db1.requests, m);
    assert reqs1.Keys == reqs.Keys + ToConfirm(db0, m, c.region, c.now);
    assert h in reqs ==> reqs1[h] == reqs[h];
    assert h in ToConfirm(db0, m, c.region, c.now) ==> reqs1[h].expiresAt == c.now + REQUEST_TTL;
    if h == c.region { assert rows1[h].checkedAt == c.now; }
  }

  /**
   * After a failing scheduled check every active region is counted if and only if no other active
   * region is in the gap: a request that expired without being swept, or a report recent enough to
   * suppress a request but no longer fresh.
   */
  lemma CoverageExact(db: Db, m: MonitorId, c: Check)
    requires m in db.config.monitors && c.source == SCHEDULED && c.status != UP
    ensures (Active(db, c.now) <= Electorate(Recorded(db, m, c), m, c.now)) <==>
            (forall h :: h in Active(db, c.now) && h != c.region ==> WillCount(db, m, h, c.now))
  {
    forall h | h in Active(db, c.now)
      ensures h in Electorate(Recorded(db, m, c), m, c.now) <==> h == c.region || WillCount(db, m, h, c.now)
    {
      RegionCounted(db, m, c, h);
    }
  }

  ghost predicate NoExpiredRequest(db: Db, m: MonitorId, now: int) {
    var reqs := RowsOf(db.requests, m);
    forall h :: h in reqs ==> reqs[h].expiresAt >= now
  }

  /**
   * With no expired request left and reports that stay fresh for at least the confirmation
   * recency, every active region is counted, exactly once, and the check can open an incident
   * only on the word of more than half of all active regions.
   */
  lemma FailingCheckNeedsActiveMajority(db: Db, m: MonitorId, c: Check)
    requires Valid(db) && m in db.config.monitors && c.source == SCHEDULED && c.status != UP
    requires NoExpiredRequest(db, m, c.now)
    requires FreshWindow(db.config, db.config.monitors[m]) >= CONFIRM_RECENCY
    ensures var db1 := Recorded(db, m, c);
      && Active(db, c.now) <= Electorate(db1, m, c.now)
      && Reporters(db1, m, c.now) !! Pending(db1, m, c.now)
      && (RecordCheck(db, m, c).transition == Opened ==>
            2 * |Unhealthy(db1, m, c.now)| > |Active(db, c.now)|)
  {
    AllActiveCounted(db, m, c);
    RecordedEffect(db, m, c);
    if RecordCheck(db, m, c).transition == Opened {
      OpensOnlyWithMajority(Recorded(db, m, c), m, EvaluationOf(c));
    }
    SubsetSize(Active(db, c.now), Electorate(Recorded(db, m, c), m, c.now));
  }

  lemma AllActiveCounted(db: Db, m: MonitorId, c: Check)
    requires m in db.config.monitors && c.source == SCHEDULED && c.status != UP
    requires NoExpiredRequest(db, m, c.now)
    requires FreshWindow(db.config, db.config.monitors[m]) >= CONFIRM_RECENCY
    ensures Active(db, c.now) <= Electorate(Recorded(db, m, c), m, c.now)
  {
    forall h | h in Active(db, c.now)
      ensures WillCount(db, m, h, c.now)
    {
    }
    CoverageExact(db, m, c);
  }

  lemma OpensOnlyWithMajority(db: Db, m: MonitorId, e: Evaluation)
    requires Valid(db) && m in db.config.monitors && Evaluate(db, m, e).transition == Opened
    ensures Majority(db, m, e.now)
  {
    EvaluateEffect(db, m, e, m);
  }

  // ---------- Repeated evaluation ----------

  /** Decisions read only the configuration, the heartbeats and the monitor's own rows. */
  lemma SameElectorate(db: Db, db': Db, m: MonitorId, now: int)
    requires m in db.config.monitors && db'.config == db.config && db'.heartbeats == db.heartbeats
    requires RowsOf(db'.statuses, m) == RowsOf(db.statuses, m)
    requires RowsOf(db'.requests, m) == RowsOf(db.requests, m)
    ensures Reporters(db', m, now) == Reporters(db, m, now) && Pending(db', m, now) == Pending(db, m, now)
    ensures Unhealthy(db', m, now) == Unhealthy(db, m, now) && Worst(db', m, now) == Worst(db, m, now)
    ensures Majority(db', m, now) == Majority(db, m, now)
  {
    assert Active(db', now) == Active(db, now);
    assert Reporters(db', m, now) == Reporters(db, m, now);
    assert Pending(db', m, now) == Pending(db, m, now);
    assert Unhealthy(db', m, now) == Unhealthy(db, m, now);
  }

  /** Regions whose fresh report came from the monitor's own schedule. */
  function ScheduledReporters(db: Db, m: MonitorId, now: int): set<Region>
    requires m in db.config.monitors
  {
    set r | r in Reporters(db, m, now) && RowsOf(db.statuses, m)[r].source == SCHEDULED
  }

  predicate ScheduledMajority(db: Db, m: MonitorId, now: int)
    requires m in db.config.monitors
  {
    2 * |Unhealthy(db, m, now) * ScheduledReporters(db, m, now)| > |ScheduledReporters(db, m, now)|
  }

  lemma PurgedReporters(db: Db, db': Db, m: MonitorId, now: int)
    requires m in db.config.monitors && db'.config == db.config && db'.heartbeats == db.heartbeats
    requires RowsOf(db'.statuses, m) == Purge(RowsOf(db.statuses, m)) && RowsOf(db'.requests, m) == map[]
    ensures Reporters(db', m, now) == ScheduledReporters(db, m, now) && Pending(db', m, now) == {}
  {
    assert Active(db', now) == Active(db, now);
  }

  /** Resolving forgets every confirmation, so only scheduled reports vote afterwards. */
  lemma PurgedElectorate(db: Db, db': Db, m: MonitorId, now: int)
    requires m in db.config.monitors && db'.config == db.config && db'.heartbeats == db.heartbeats
    requires RowsOf(db'.statuses, m) == Purge(RowsOf(db.statuses, m)) && RowsOf(db'.requests, m) == map[]
    ensures Majority(db', m, now) <==> ScheduledMajority(db, m, now)
  {
    PurgedReporters(db, db', m, now);
    assert Electorate(db', m, now) == ScheduledReporters(db, m, now);
    assert Unhealthy(db', m, now) == Unhealthy(db, m, now) * ScheduledReporters(db, m, now);
  }

  lemma RowsAfterPut<V>(table: map<MonitorId, map<Region, V>>, m: MonitorId, rows: map<Region, V>, k: MonitorId)
    ensures RowsOf(table[m := rows], k) == if k == m then rows else RowsOf(table, k)
    ensures RowsOf(table - {m}, k) == if k == m then map[] else RowsOf(table, k)
  {
  }

  /** The rows an evaluation leaves behind: untouched, or purged on a resolve; others never. */
  lemma EvaluateRows(db: Db, m: MonitorId, e: Evaluation, k: MonitorId)
    requires Valid(db)
    ensures var o := Evaluate(db, m, e);
      && o.db.config == db.config && o.db.heartbeats == db.heartbeats
      && (k != m || o.transition != Resolved ==>
            RowsOf(o.db.statuses, k) == RowsOf(db.statuses, k) && RowsOf(o.db.requests, k) == RowsOf(db.requests, k))
      && (o.transition == Resolved ==>
            RowsOf(o.db.statuses, m) == Purge(RowsOf(db.statuses, m)) && RowsOf(o.db.requests, m) == map[])
  {
    EvaluateCases(db, m, e, k);
    forall x ensures
      && RowsOf(db.statuses[m := Purge(RowsOf(db.statuses, m))], x) ==
           (if x == m then Purge(RowsOf(db.statuses, m)) else RowsOf(db.statuses, x))
      && RowsOf(db.requests - {m}, x) == if x == m then map[] else RowsOf(db.requests, x)
    {
      RowsAfterPut(db.statuses, m, Purge(RowsOf(db.statuses, m)), x);
      RowsAfterPut(db.requests, m, map[], x);
    }
  }

  lemma EvaluateCases(db: Db, m: MonitorId, e: Evaluation, k: MonitorId)
    requires Valid(db)
    ensures var o := Evaluate(db, m, e);
      && Lawful(db, m, o, k)
      && (o.transition != Resolved ==> o.db.statuses == db.statuses && o.db.requests == db.requests)
      && (o.transition == Resolved ==>
            o.db.statuses == db.statuses[m := Purge(RowsOf(db.statuses, m))] && o.db.requests == db.requests - {m})
  {
    EvaluateEffect(db, m, e, k);
    if m in db.config.monitors {
      if Majority(db, m, e.now) && OpenIncident(db.incidents, m).None? {
        EvaluateOpens(db, m, e, k);
      } else if Majority(db, m, e.now) {
        EvaluateRefreshes(db, m, e, k);
      } else if OpenIncident(db.incidents, m).Some? {
        EvaluateResolves(db, m, e, k);
      }
    }
  }

  /** The severity an evaluation leaves open is the sticky worst of what was open and what is reported. */
  lemma EvaluateStatus(db: Db, m: MonitorId, e: Evaluation)
    requires Valid(db) && m in db.config.monitors
    ensures var before := OpenStatus(db.incidents, m);
      OpenStatus(Evaluate(db, m, e).db.incidents, m) ==
      if !Majority(db, m, e.now) then None
      else if before.None? then Some(Worst(db, m, e.now))
      else Some(StickyStatus(before.value, Worst(db, m, e.now)))
  {
    EvaluateEffect(db, m, e, m);
    if Majority(db, m, e.now) {
      if OpenIncident(db.incidents, m).None? {
        EvaluateOpens(db, m, e, m);
      } else {
        EvaluateRefreshes(db, m, e, m);
      }
    }
  }

  /**
   * Evaluating again at the same clock changes nothing after opened, escalated or none; after a
   * resolve it reopens exactly when the fresh scheduled reports alone hold an unhealthy majority.
   */
  lemma ReEvaluationExact(db: Db, m: MonitorId, e: Evaluation, e': Evaluation)
    requires Valid(db) && m in db.config.monitors && e'.now == e.now
    ensures var o := Evaluate(db, m, e); var again := Evaluate(o.db, m, e');
      && (o.transition != Resolved ==> again.transition == Nothing)
      && (o.transition == Resolved ==>
            again.transition == if ScheduledMajority(db, m, e.now) then Opened else Nothing)
  {
    EvaluateEffect(db, m, e, m);
    if Evaluate(db, m, e).transition == Resolved {
      ResolvedAgain(db, m, e, e');
    } else {
      SettledAgain(db, m, e, e');
    }
  }

  lemma SettledAgain(db: Db, m: MonitorId, e: Evaluation, e': Evaluation)
    requires Valid(db) && m in db.config.monitors && e'.now == e.now && Evaluate(db, m, e).transition != Resolved
    ensures Evaluate(Evaluate(db, m, e).db, m, e').transition == Nothing
  {
    var db1 := Evaluate(db, m, e).db;
    EvaluateEffect(db, m, e, m);
    EvaluateRows(db, m, e, m);
    EvaluateStatus(db, m, e);
    SameElectorate(db, db1, m, e.now);
    EvaluateEffect(db1, m, e', m);
    EvaluateStatus(db1, m, e');
  }

  lemma ResolvedAgain(db: Db, m: MonitorId, e: Evaluation, e': Evaluation)
    requires Valid(db) && m in db.config.monitors && e'.now == e.now && Evaluate(db, m, e).transition == Resolved
    ensures Evaluate(Evaluate(db, m, e).db, m, e').transition ==
            if ScheduledMajority(db, m, e.now) then Opened else Nothing
  {
    var db1 := Evaluate(db, m, e).db;
    EvaluateEffect(db, m, e, m);
    EvaluateRows(db, m, e, m);
    PurgedElectorate(db, db1, m, e.now);
    EvaluateEffect(db1, m, e', m);
  }

  // ---------- Outages that outlive their confirmations ----------

  /**
   * With every report unhealthy, an open incident survives an evaluation if and only if fewer
   * regions are pending than have reported.
   */
  lemma AllUnhealthySurvivesExact(db: Db, m: MonitorId, e: Evaluation)
    requires Valid(db) && m in db.config.monitors && OpenStatus(db.incidents, m).Some?
    requires Unhealthy(db, m, e.now) == Reporters(db, m, e.now)
    ensures Evaluate(db, m, e).transition == Resolved <==>
            |Pending(db, m, e.now)| >= |Reporters(db, m, e.now)|
  {
    EvaluateEffect(db, m, e, m);
    assert Reporters(db, m, e.now) !! Pending(db, m, e.now);
  }

  /** The only configured region fails while every other region's report is stale and none is asked yet. */
  ghost predicate LoneFailure(db: Db, m: MonitorId, c: Check) {
    && m in db.config.monitors && db.config.monitors[m].regions == [c.region]
    && c.source == SCHEDULED && c.status != UP
    && RowsOf(db.requests, m) == map[]
    && (forall r :: r in RowsOf(db.statuses, m) && r != c.region ==>
          !IsFresh(RowsOf(db.statuses, m)[r], c.now, FreshWindow(db.config, db.config.monitors[m]))
          && !RecentlyChecked(db, m, r, c.now))
  }

  lemma LoneReporter(db: Db, m: MonitorId, c: Check)
    requires LoneFailure(db, m, c)
    ensures var db1 := Recorded(db, m, c);
      && Reporters(db1, m, c.now) == {c.region} && Unhealthy(db1, m, c.now) == {c.region}
      && ScheduledReporters(db1, m, c.now) == {c.region}
      && c.region in RowsOf(db1.statuses, m) && RowsOf(db1.statuses, m)[c.region].status == c.status
  {
    var db1 := Recorded(db, m, c);
    var rows, rows1 := RowsOf(db.statuses, m), RowsOf(db1.statuses, m);
    assert rows1 == rows[c.region := rows1[c.region]];
    assert Reporters(db1, m, c.now) == {c.region};
  }

  /**
   * A failing check resolves a confirmed outage: once the other regions' reports have gone stale,
   * the confirmations a failing check of the only configured region asks for outvote that region's
   * own failure. Holds for every severity, message and clock.
   */
  lemma FailingCheckResolves(db: Db, m: MonitorId, c: Check, h: Region)
    requires Valid(db) && LoneFailure(db, m, c) && OpenStatus(db.incidents, m).Some?
    requires h in Active(db, c.now) && h != c.region
    ensures RecordCheck(db, m, c).transition == Resolved
  {
    var db1 := Recorded(db, m, c);
    RecordedEffect(db, m, c);
    RegionCounted(db, m, c, h);
    LoneReporter(db, m, c);
    assert h in Pending(db1, m, c.now);
    SubsetSize({h}, Pending(db1, m, c.now));
    AllUnhealthySurvivesExact(db1, m, EvaluationOf(c));
  }

  /** The outage then flaps: evaluated again at the same clock, it opens a second incident. */
  lemma FailingCheckFlaps(db: Db, m: MonitorId, c: Check, h: Region, e: Evaluation)
    requires Valid(db) && LoneFailure(db, m, c) && OpenStatus(db.incidents, m).Some?
    requires h in Active(db, c.now) && h != c.region && e.now == c.now
    ensures RecordCheck(db, m, c).transition == Resolved
    ensures var again := Evaluate(RecordCheck(db, m, c).db, m, e);
      again.transition == Opened && OpenStatus(again.db.incidents, m) == Some(c.status)
  {
    FailingCheckResolves(db, m, c, h);
    RecordedEffect(db, m, c);
    LoneReporter(db, m, c);
    ReEvaluationExact(Recorded(db, m, c), m, EvaluationOf(c), e);
    ReopenedSeverity(Recorded(db, m, c), m, c, e);
  }

  lemma ReopenedSeverity(db: Db, m: MonitorId, c: Check, e: Evaluation)
    requires Valid(db) && m in db.config.monitors && e.now == c.now && c.status != UP
    requires Evaluate(db, m, EvaluationOf(c)).transition == Resolved
    requires ScheduledReporters(db, m, c.now) == {c.region}
    requires c.region in RowsOf(db.statuses, m) && RowsOf(db.statuses, m)[c.region].status == c.status
    ensures OpenStatus(Evaluate(Evaluate(db, m, EvaluationOf(c)).db, m, e).db.incidents, m) == Some(c.status)
  {
    var db1 := Evaluate(db, m, EvaluationOf(c)).db;
    EvaluateEffect(db, m, EvaluationOf(c), m);
    EvaluateRows(db, m, EvaluationOf(c), m);
    PurgedReporters(db, db1, m, c.now);
    OnlyReport(db1, m, c.region, c.now);
    EvaluateStatus(db1, m, e);
  }

  /** A single fresh unhealthy report is a majority of its own severity. */
  lemma OnlyReport(db: Db, m: MonitorId, r: Region, now: int)
    requires m in db.config.monitors && Reporters(db, m, now) == {r} && Pending(db, m, now) == {}
    requires RowsOf(db.statuses, m)[r].status != UP
    ensures Majority(db, m, now) && Worst(db, m, now) == RowsOf(db.statuses, m)[r].status
  {
    assert r in Reporters(db, m, now);
    assert Unhealthy(db, m, now) == {r} && Electorate(db, m, now) == {r};
    assert r in Unhealthy(db, m, now);
  }

  // ---------- Fan-out ----------

  /** The unique indexes of notification_channels and org_alert_recipients. */
  ghost predicate UniqueDestinations(c: Config) {
    && (forall a, b | a in c.channels && b in c.channels ::
          c.channels[a].user == c.channels[b].user && c.channels[a].dest == c.channels[b].dest ==> a == b)
    && (forall a, b | a in c.recipients && b in c.recipients ::
          c.recipients[a].org == c.recipients[b].org && c.recipients[a].dest == c.recipients[b].dest ==> a == b)
  }

  /** Destinations of the owner's channels that are on for this monitor. */
  function ChannelDestinations(c: Config, m: MonitorId, owner: UserId): set<Destination> {
    set ch | ch in c.channels && c.channels[ch].user == owner
             && (if (m, ch) in c.settings then c.settings[(m, ch)] else c.channels[ch].enabled)
           :: c.channels[ch].dest
  }

  /** Destinations of all alert recipients of the monitor's organization. */
  function RecipientDestinations(c: Config, mon: Monitor): set<Destination> {
    set r | r in c.recipients && mon.org == Some(c.recipients[r].org) :: c.recipients[r].dest
  }

  /** Distinct sources of one announcement have distinct destinations. */
  lemma SourcesAreDistinct(c: Config, m: MonitorId, mon: Monitor, s: AlertSource, u: AlertSource)
    requires UniqueDestinations(c)
    requires s in AlertSources(c, m, mon) && u in AlertSources(c, m, mon)
    requires DestinationOf(c, s) == DestinationOf(c, u)
    ensures s == u
  {
    if s.ViaChannel? && u.ViaRecipient? {
      RecipientAddsDestination(c, m, mon, s.channel, u.recipient);
    } else if s.ViaRecipient? && u.ViaChannel? {
      RecipientAddsDestination(c, m, mon, u.channel, s.recipient);
    }
  }

  /** The destinations of the sources are the enabled channels and all recipients. */
  lemma SourcesReach(c: Config, m: MonitorId, mon: Monitor)
    ensures (set s | s in AlertSources(c, m, mon) :: DestinationOf(c, s)) ==
            ChannelDestinations(c, m, OwnerOf(c, mon)) + RecipientDestinations(c, mon)
  {
    var reached := set s | s in AlertSources(c, m, mon) :: DestinationOf(c, s);
    forall d | d in ChannelDestinations(c, m, OwnerOf(c, mon)) + RecipientDestinations(c, mon)
      ensures d in reached
    {
      DestinationReached(c, m, mon, d);
    }
  }

  /** One row per destination, and the destinations are the enabled channels and all recipients. */
  lemma FanOutReachesEachOnce(c: Config, m: MonitorId, status: Status, text: Text,
                              code: Option<int>, latency: int, now: int)
    requires m in c.monitors && UniqueDestinations(c)
    ensures var rows := AlertRows(c, m, status, text, code, latency, now);
      && (forall a, b :: a in rows && b in rows && rows[a].dest == rows[b].dest ==> a == b)
      && (set k | k in rows :: rows[k].dest) ==
           ChannelDestinations(c, m, OwnerOf(c, c.monitors[m])) + RecipientDestinations(c, c.monitors[m])
      && (forall k :: k in rows ==> rows[k] == OutboxRow(m, rows[k].dest, status, text, code, latency, 0, now))
  {
    var mon := c.monitors[m];
    var rows := AlertRows(c, m, status, text, code, latency, now);
    forall a, b | a in rows && b in rows && rows[a].dest == rows[b].dest
      ensures a == b
    {
      SourcesAreDistinct(c, m, mon, a, b);
    }
    SourcesReach(c, m, mon);
    RowsReachSources(c, m, AlertSources(c, m, mon), status, text, code, latency, now);
  }

  lemma RowsReachSources(c: Config, m: MonitorId, sources: set<AlertSource>, status: Status, text: Text,
                         code: Option<int>, latency: int, now: int)
    ensures var rows := RowsFor(c, m, sources, status, text, code, latency, now);
      (set k | k in rows :: rows[k].dest) == set s | s in sources :: DestinationOf(c, s)
  {
    var rows := RowsFor(c, m, sources, status, text, code, latency, now);
    var reached := set k | k in rows :: rows[k].dest;
    var destinations := set s | s in sources :: DestinationOf(c, s);
    forall d | d in destinations
      ensures d in reached
    {
      var s :| s in sources && DestinationOf(c, s) == d;
      assert s in rows && rows[s].dest == d;
    }
    assert reached == destinations;
  }

  /** A recipient is only alerted when no enabled owner channel covers its destination. */
  lemma RecipientAddsDestination(c: Config, m: MonitorId, mon: Monitor, ch: ChannelId, r: RecipientId)
    requires ViaChannel(ch) in AlertSources(c, m, mon) && ViaRecipient(r) in AlertSources(c, m, mon)
    ensures DestinationOf(c, ViaChannel(ch)) != DestinationOf(c, ViaRecipient(r))
  {
    assert RecipientAlerts(c, m, mon, r) && ChannelAlerts(c, m, OwnerOf(c, mon), ch);
  }

  lemma DestinationReached(c: Config, m: MonitorId, mon: Monitor, d: Destination)
    requires d in ChannelDestinations(c, m, OwnerOf(c, mon)) + RecipientDestinations(c, mon)
    ensures exists s :: s in AlertSources(c, m, mon) && DestinationOf(c, s) == d
  {
    if ch :| ch in c.channels && ChannelAlerts(c, m, OwnerOf(c, mon), ch) && c.channels[ch].dest == d {
      assert ViaChannel(ch) in AlertSources(c, m, mon) && DestinationOf(c, ViaChannel(ch)) == d;
    } else {
      var r :| r in c.recipients && mon.org == Some(c.recipients[r].org) && c.recipients[r].dest == d;
      assert RecipientAlerts(c, m, mon, r);
      assert ViaRecipient(r) in AlertSources(c, m, mon) && DestinationOf(c, ViaRecipient(r)) == d;
    }
  }

  /** Severity put on the wire for a transition: the incident's, or UP when it is over. */
  ghost function AnnouncedStatus(o: Outcome, m: MonitorId): Status {
    OrElse(OpenStatus(o.db.incidents, m), UP)
  }

  lemma AnnounceRows(db: Db, m: MonitorId, e: Evaluation, t: Transition, i: nat, status: Status, text: Text)
    requires m in db.config.monitors && i in db.incidents
    ensures var o := Announce(db, m, e, t, i, status, text);
      o.db.outbox == if e.suppressed then db.outbox
        else db.outbox[db.nextId := AlertRows(db.config, m, status, text, e.statusCode, e.latency, e.now)]
  {
  }

  /** The outcome enqueued this announcement, unless in maintenance. */
  ghost predicate Enqueued(db: Db, m: MonitorId, e: Evaluation, o: Outcome, batch: nat, status: Status, text: Text) {
    && m in db.config.monitors
    && o.db.outbox == if e.suppressed then db.outbox
         else db.outbox[batch := AlertRows(db.config, m, status, text, e.statusCode, e.latency, e.now)]
  }

  lemma OpeningEnqueues(db: Db, m: MonitorId, e: Evaluation)
    requires Valid(db) && m in db.config.monitors && Majority(db, m, e.now) && OpenIncident(db.incidents, m).None?
    ensures Enqueued(db, m, e, Evaluate(db, m, e), db.nextId + 1, Worst(db, m, e.now), Reports(db, m, e.now))
  {
    var worst, text := Worst(db, m, e.now), Reports(db, m, e.now);
    AnnounceRows(OpenedDb(db, m, e, worst, text), m, e, Opened, db.nextId, worst, text);
  }

  lemma RefreshEnqueues(db: Db, m: MonitorId, e: Evaluation)
    requires Valid(db) && m in db.config.monitors && Majority(db, m, e.now) && OpenIncident(db.incidents, m).Some?
    ensures var o := Evaluate(db, m, e);
      if o.transition == Nothing then o.db.outbox == db.outbox
      else OpenStatus(o.db.incidents, m).Some?
           && Enqueued(db, m, e, o, db.nextId, OpenStatus(o.db.incidents, m).value, Reports(db, m, e.now))
  {
    EvaluateRefreshes(db, m, e, m);
    var i := OpenIncident(db.incidents, m).value;
    OpenIsUnique(db.incidents, db.nextId, m, i);
    var db1 := RefreshedDb(db, e, i, Worst(db, m, e.now), Reports(db, m, e.now));
    AnnounceRows(db1, m, e, Escalated, i, db1.incidents[i].status, Reports(db, m, e.now));
  }

  lemma ResolutionEnqueues(db: Db, m: MonitorId, e: Evaluation)
    requires Valid(db) && m in db.config.monitors && !Majority(db, m, e.now) && OpenIncident(db.incidents, m).Some?
    ensures Enqueued(db, m, e, Evaluate(db, m, e), db.nextId, UP, CheckText(e.upMessage))
  {
    var i := OpenIncident(db.incidents, m).value;
    AnnounceRows(ResolvedDb(db, m, e, i), m, e, Resolved, i, UP, CheckText(e.upMessage));
  }

  /** An evaluation enqueues one announcement per transition, and none otherwise or in maintenance. */
  lemma TransitionsAnnounce(db: Db, m: MonitorId, e: Evaluation) returns (batch: nat)
    requires Valid(db)
    ensures var o := Evaluate(db, m, e);
      if o.transition == Nothing then o.db.outbox == db.outbox
      else m in db.config.monitors && batch >= db.nextId &&
           Enqueued(db, m, e, o, batch, AnnouncedStatus(o, m),
                    if o.transition == Resolved then CheckText(e.upMessage) else Reports(db, m, e.now))
  {
    batch := db.nextId;
    if m in db.config.monitors {
      var open := OpenIncident(db.incidents, m);
      if Majority(db, m, e.now) && open.None? {
        EvaluateOpens(db, m, e, m);
        OpeningEnqueues(db, m, e);
        batch := db.nextId + 1;
      } else if Majority(db, m, e.now) {
        EvaluateRefreshes(db, m, e, m);
        RefreshEnqueues(db, m, e);
      } else if open.Some? {
        EvaluateResolves(db, m, e, m);
        ResolutionEnqueues(db, m, e);
      }
    }
  }

  // ---------- Staleness ----------

  /** What the API calls stale: older than three effective intervals as Go computes them. */
  predicate ApiStale(row: RegionStatus, now: int, interval: nat) {
    now - row.checkedAt > interval * STALE_MULTIPLIER * SECOND
  }

  /** The two interval resolutions agree exactly on overrides and on timeouts below a known plan's floor. */
  lemma IntervalsAgreeExact(raw: Option<nat>, plan: Plan, timeout: nat)
    ensures SqlEffectiveInterval(raw, plan) <= EffectiveInterval(raw, plan, timeout)
    ensures SqlEffectiveInterval(raw, plan) == EffectiveInterval(raw, plan, timeout) <==>
            raw.Some? || (plan != UNRECOGNISED && timeout < LimitsForPlan(plan).minInterval)
  {
  }

  /**
   * A region the API reports stale never counts as fresh in quorum, for scheduled reports always
   * and for confirmations as soon as the interval is at least 40 seconds; below that, some report
   * is stale to the API and fresh to the quorum.
   */
  lemma StaleNeverFreshExact(c: Config, mon: Monitor, timeout: nat)
    ensures var interval := EffectiveInterval(mon.interval, PlanOf(c.subscriptions, OwnerOf(c, mon)), timeout);
      && (forall row, now :: ApiStale(row, now, interval) && row.source == SCHEDULED ==>
            !IsFresh(row, now, FreshWindow(c, mon)))
      && ((forall row, now :: ApiStale(row, now, interval) ==> !IsFresh(row, now, FreshWindow(c, mon))) <==>
          interval >= 40)
  {
    var plan := PlanOf(c.subscriptions, OwnerOf(c, mon));
    var interval := EffectiveInterval(mon.interval, plan, timeout);
    IntervalsAgreeExact(mon.interval, plan, timeout);
    if interval < 40 {
      var row := RegionStatus(DOWN, 0, None, None, VERIFICATION, 0);
      assert ApiStale(row, VERIFICATION_WINDOW, interval) && IsFresh(row, VERIFICATION_WINDOW, FreshWindow(c, mon));
    }
  }
}
