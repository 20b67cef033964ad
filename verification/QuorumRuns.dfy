/**
 * Safety of the quorum machine over every run: whatever checks, confirmations, sweeps,
 * heartbeats, configuration changes and deletions are interleaved, with whatever clocks, a
 * monitor has at most one open incident and its transitions follow one grammar.
 */
module QuorumRuns {
  import opened Types
  import opened Plans
  import opened Quorum

  // ---------- The incidents table ----------

  lemma OpenIsUnique(t: map<nat, Incident>, n: nat, m: MonitorId, i: nat)
    requires ValidIncidents(t, n) && IsOpen(t, i, m)
    ensures OpenIncident(t, m) == Some(i) && OpenStatus(t, m) == Some(t[i].status)
  {
  }

  lemma OpenIsBad(t: map<nat, Incident>, n: nat, m: MonitorId)
    requires ValidIncidents(t, n)
    ensures OpenStatus(t, m) != Some(UP)
  {
  }

  /** Tables that agree on a monitor's open incidents agree on its open severity. */
  lemma SameOpen(t: map<nat, Incident>, n: nat, t': map<nat, Incident>, n': nat, m: MonitorId)
    requires ValidIncidents(t, n) && ValidIncidents(t', n')
    requires forall i :: IsOpen(t, i, m) <==> IsOpen(t', i, m)
    requires forall i :: IsOpen(t, i, m) && IsOpen(t', i, m) ==> t'[i].status == t[i].status
    ensures OpenStatus(t', m) == OpenStatus(t, m)
  {
    if i :| IsOpen(t, i, m) {
      OpenIsUnique(t, n, m, i);
      OpenIsUnique(t', n', m, i);
    }
  }

  /** Equal up to the time of the last alert. */
  ghost predicate SameButStamps(t: map<nat, Incident>, t': map<nat, Incident>) {
    && t'.Keys == t.Keys
    && forall j :: j in t ==> t'[j] == t[j].(lastAlertAt := t'[j].lastAlertAt)
  }

  /** The open severity before and after an evaluation, per transition it reports. */
  ghost predicate Moves(before: Option<Status>, t: Transition, after: Option<Status>) {
    match t
    case Nothing => after == before
    case Opened => before.None? && after.Some? && after.value != UP
    case Escalated => before == Some(DEGRADED) && after == Some(DOWN)
    case Resolved => before.Some? && after.None?
  }

  function IncidentsOf(t: map<nat, Incident>, m: MonitorId): set<nat> {
    set i | i in t && t[i].monitor == m
  }

  /** What a transition of m does to the incidents of m and of any other monitor k. */
  ghost predicate LawfulTable(t: map<nat, Incident>, n: nat, t': map<nat, Incident>, n': nat,
                              m: MonitorId, tr: Transition, k: MonitorId) {
    && ValidIncidents(t', n') && n' >= n
    && Moves(OpenStatus(t, m), tr, OpenStatus(t', m))
    && IncidentsOf(t', m) == IncidentsOf(t, m) + (if tr == Opened then {n} else {})
    && (k != m ==> OpenStatus(t', k) == OpenStatus(t, k) && IncidentsOf(t', k) == IncidentsOf(t, k))
  }

  lemma OpeningIsLawful(t: map<nat, Incident>, n: nat, inc: Incident, t': map<nat, Incident>, n': nat,
                        m: MonitorId, k: MonitorId)
    requires ValidIncidents(t, n) && OpenIncident(t, m).None? && n' > n
    requires inc.monitor == m && inc.resolvedAt.None? && inc.status != UP
    requires SameButStamps(t[n := inc], t')
    ensures LawfulTable(t, n, t', n', m, Opened, k)
  {
    assert forall j, x :: IsOpen(t', j, x) <==> IsOpen(t, j, x) || (j == n && x == m);
    OpenIsUnique(t', n', m, n);
    if k != m { SameOpen(t, n, t', n', k); }
  }

  lemma RefreshKeepsOpen(t: map<nat, Incident>, i: nat, inc: Incident, t': map<nat, Incident>)
    requires i in t && inc.monitor == t[i].monitor && inc.resolvedAt == t[i].resolvedAt
    requires SameButStamps(t[i := inc], t')
    ensures forall j, x :: IsOpen(t', j, x) <==> IsOpen(t, j, x)
    ensures forall j :: j in t && j != i ==> t'[j].status == t[j].status
    ensures t'[i].status == inc.status && forall j :: j in t' ==> j in t && t'[j].monitor == t[j].monitor
  {
  }

  lemma RefreshIsLawful(t: map<nat, Incident>, n: nat, i: nat, inc: Incident, t': map<nat, Incident>, n': nat,
                        m: MonitorId, k: MonitorId)
    requires ValidIncidents(t, n) && IsOpen(t, i, m) && n' >= n
    requires inc.monitor == m && inc.resolvedAt.None? && inc.status != UP
    requires inc.status == t[i].status || inc.status == DOWN
    requires SameButStamps(t[i := inc], t')
    ensures LawfulTable(t, n, t', n', m, if inc.status == t[i].status then Nothing else Escalated, k)
  {
    RefreshKeepsOpen(t, i, inc, t');
    assert IncidentsOf(t', m) == IncidentsOf(t, m);
    OpenIsUnique(t, n, m, i);
    OpenIsUnique(t', n', m, i);
    if k != m { SameOpen(t, n, t', n', k); }
  }

  lemma ResolutionIsLawful(t: map<nat, Incident>, n: nat, i: nat, at: int, t': map<nat, Incident>, n': nat,
                           m: MonitorId, k: MonitorId)
    requires ValidIncidents(t, n) && IsOpen(t, i, m) && n' >= n
    requires SameButStamps(t[i := t[i].(resolvedAt := Some(at))], t')
    ensures LawfulTable(t, n, t', n', m, Resolved, k)
  {
    assert forall j, x :: IsOpen(t', j, x) <==> IsOpen(t, j, x) && j != i;
    OpenIsUnique(t, n, m, i);
    if k != m { SameOpen(t, n, t', n', k); }
  }

  // ---------- One evaluation ----------

  /** What announcing a transition may change: the outbox, the id supply and one stamp. */
  lemma AnnounceEffect(db: Db, m: MonitorId, e: Evaluation, t: Transition, i: nat, status: Status, text: Text)
    requires m in db.config.monitors && i in db.incidents
    ensures var o := Announce(db, m, e, t, i, status, text);
      && o.transition == t && o.incident == Some(i)
      && o.db == db.(outbox := o.db.outbox, incidents := o.db.incidents, nextId := o.db.nextId)
      && o.db.nextId >= db.nextId
      && SameButStamps(db.incidents, o.db.incidents)
  {
  }

  ghost predicate Lawful(db: Db, m: MonitorId, o: Outcome, k: MonitorId) {
    && o.db.config == db.config && o.db.heartbeats == db.heartbeats
    && LawfulTable(db.incidents, db.nextId, o.db.incidents, o.db.nextId, m, o.transition, k)
  }

  lemma EvaluateOpens(db: Db, m: MonitorId, e: Evaluation, k: MonitorId)
    requires Valid(db) && m in db.config.monitors && Majority(db, m, e.now)
    requires OpenIncident(db.incidents, m).None?
    ensures var o := Evaluate(db, m, e);
      && Lawful(db, m, o, k) && o.transition == Opened
      && OpenStatus(o.db.incidents, m) == Some(Worst(db, m, e.now))
      && o.db.statuses == db.statuses && o.db.requests == db.requests
  {
    var o, db1 := Evaluate(db, m, e), OpenedDb(db, m, e, Worst(db, m, e.now), Reports(db, m, e.now));
    AnnounceEffect(db1, m, e, Opened, db.nextId, Worst(db, m, e.now), Reports(db, m, e.now));
    OpeningIsLawful(db.incidents, db.nextId, db1.incidents[db.nextId], o.db.incidents, o.db.nextId, m, k);
    OpenIsUnique(o.db.incidents, o.db.nextId, m, db.nextId);
  }

  lemma EvaluateRefreshes(db: Db, m: MonitorId, e: Evaluation, k: MonitorId)
    requires Valid(db) && m in db.config.monitors && Majority(db, m, e.now)
    requires OpenIncident(db.incidents, m).Some?
    ensures var o := Evaluate(db, m, e); var before := OpenStatus(db.incidents, m);
      && Lawful(db, m, o, k) && (o.transition == Nothing || o.transition == Escalated)
      && before.Some? && OpenStatus(o.db.incidents, m) == Some(StickyStatus(before.value, Worst(db, m, e.now)))
      && o.db.statuses == db.statuses && o.db.requests == db.requests
  {
    var o, i := Evaluate(db, m, e), OpenIncident(db.incidents, m).value;
    var db1 := RefreshedDb(db, e, i, Worst(db, m, e.now), Reports(db, m, e.now));
    AnnounceEffect(db1, m, e, Escalated, i, db1.incidents[i].status, Reports(db, m, e.now));
    RefreshIsLawful(db.incidents, db.nextId, i, db1.incidents[i], o.db.incidents, o.db.nextId, m, k);
    OpenIsUnique(o.db.incidents, o.db.nextId, m, i);
  }

  lemma EvaluateResolves(db: Db, m: MonitorId, e: Evaluation, k: MonitorId)
    requires Valid(db) && m in db.config.monitors && !Majority(db, m, e.now)
    requires OpenIncident(db.incidents, m).Some?
    ensures var o := Evaluate(db, m, e);
      && Lawful(db, m, o, k) && o.transition == Resolved
      && o.db.statuses == db.statuses[m := Purge(RowsOf(db.statuses, m))] && o.db.requests == db.requests - {m}
  {
    var o, i := Evaluate(db, m, e), OpenIncident(db.incidents, m).value;
    AnnounceEffect(ResolvedDb(db, m, e, i), m, e, Resolved, i, UP, CheckText(e.upMessage));
    ResolutionIsLawful(db.incidents, db.nextId, i, e.now, o.db.incidents, o.db.nextId, m, k);
  }

  /** Every evaluation is lawful, and leaves an incident open exactly when there is a majority. */
  lemma EvaluateEffect(db: Db, m: MonitorId, e: Evaluation, k: MonitorId)
    requires Valid(db)
    ensures var o := Evaluate(db, m, e);
      && Lawful(db, m, o, k)
      && (m !in db.config.monitors ==> o.transition == Nothing)
      && (m in db.config.monitors ==> (OpenStatus(o.db.incidents, m).Some? <==> Majority(db, m, e.now)))
  {
    if m in db.config.monitors {
      if Majority(db, m, e.now) {
        if OpenIncident(db.incidents, m).None? {
          EvaluateOpens(db, m, e, k);
        } else {
          EvaluateRefreshes(db, m, e, k);
        }
      } else if OpenIncident(db.incidents, m).Some? {
        EvaluateResolves(db, m, e, k);
      }
    }
  }

  // ---------- Steps ----------

  /** Everything that touches the quorum tables, each as one atomic step. */
  datatype Step =
    | Recheck(m: MonitorId, check: Check)
    | ReEvaluate(m: MonitorId, now: int, suppressed: bool)
    | Heartbeat(region: Region, now: int)
    | Claim(region: Region, now: int, chosen: set<MonitorId>)
    | Complete(m: MonitorId, region: Region, batch: nat)
    | ExpireRequests(now: int, locked: set<(MonitorId, Region)>)
    | DropStatuses(m: MonitorId, regions: set<Region>)
    | Elsewhere(config: Config, outbox: map<nat, map<AlertSource, OutboxRow>>)
    | NewMonitor(m: MonitorId, monitor: Monitor)
    | DeleteMonitor(m: MonitorId)
    | Repeat(incident: nat, now: int)       // the repeat sweep stamps an open incident

  /** Unclaimed, unexpired requests of the region that this claim picked. */
  function ClaimRow(row: Request, r: Region, picked: bool, region: Region, now: int): Request {
    if picked && r == region && row.claimedAt.None? && row.expiresAt > now then row.(claimedAt := Some(now)) else row
  }

  function ClaimRequests(t: map<MonitorId, map<Region, Request>>, region: Region, now: int, chosen: set<MonitorId>)
    : map<MonitorId, map<Region, Request>>
  {
    map m | m in t :: map r | r in t[m] :: ClaimRow(t[m][r], r, m in chosen, region, now)
  }

  /** Requests that survive the expiry sweep: not yet expired, or locked by somebody else. */
  function Unexpired(t: map<MonitorId, map<Region, Request>>, now: int, locked: set<(MonitorId, Region)>)
    : map<MonitorId, map<Region, Request>>
  {
    map m | m in t :: map r | r in t[m] && (t[m][r].expiresAt > now || (m, r) in locked) :: t[m][r]
  }

  /** The (monitor, region) rows that an expiry sweep deletes. */
  function ExpiredRows(t: map<MonitorId, map<Region, Request>>, now: int, locked: set<(MonitorId, Region)>)
    : set<(MonitorId, Region)>
  {
    set m, r | m in t && r in t[m] && t[m][r].expiresAt <= now && (m, r) !in locked :: (m, r)
  }

  function MonitorsOf(rows: set<(MonitorId, Region)>): set<MonitorId> {
    set row | row in rows :: row.0
  }

  predicate IsHousekeeping(s: Step) { !s.Recheck? && !s.ReEvaluate? && !s.DeleteMonitor? && !s.Repeat? }

  /** Steps that leave the incidents table alone. */
  function Housekeeping(db: Db, s: Step): Db
    requires IsHousekeeping(s)
  {
    match s
    case Heartbeat(region, now) => db.(heartbeats := db.heartbeats[region := now])
    case Claim(region, now, chosen) => db.(requests := ClaimRequests(db.requests, region, now, chosen))
    case Complete(m, region, batch) =>
      var reqs := RowsOf(db.requests, m);
      if region in reqs && reqs[region].batch == batch then db.(requests := db.requests[m := reqs - {region}]) else db
    case ExpireRequests(now, locked) => db.(requests := Unexpired(db.requests, now, locked))
    case DropStatuses(m, regions) => db.(statuses := db.statuses[m := RowsOf(db.statuses, m) - regions])
    case Elsewhere(config, outbox) =>
      if config.monitors.Keys == db.config.monitors.Keys then db.(config := config, outbox := outbox) else db
    case NewMonitor(m, monitor) =>
      if m in db.config.monitors then db
      else db.(config := db.config.(monitors := db.config.monitors[m := monitor]))
  }

  function Stamped(db: Db, i: nat, now: int): Db {
    if i in db.incidents && db.incidents[i].resolvedAt.None?
    then db.(incidents := db.incidents[i := db.incidents[i].(lastAlertAt := Some(now))]) else db
  }

  function Deleted(db: Db, m: MonitorId): Db {
    db.(config := db.config.(monitors := db.config.monitors - {m}),
        statuses := db.statuses - {m},
        requests := db.requests - {m},
        incidents := map i | i in db.incidents && db.incidents[i].monitor != m :: db.incidents[i])
  }

  /** The sweep's re-evaluation passes no status code, latency or message. */
  function SweepEvaluation(now: int, suppressed: bool): Evaluation {
    Evaluation(now, None, 0, None, suppressed)
  }

  ghost function Next(db: Db, s: Step): Db {
    match s
    case Recheck(m, check) => RecordCheck(db, m, check).db
    case ReEvaluate(m, now, suppressed) => Evaluate(db, m, SweepEvaluation(now, suppressed)).db
    case DeleteMonitor(m) => Deleted(db, m)
    case Repeat(i, now) => Stamped(db, i, now)
    case _ => Housekeeping(db, s)
  }

  /** The transition a step reports for monitor m. */
  ghost function Reported(db: Db, s: Step, m: MonitorId): Transition {
    match s
    case Recheck(k, check) => if k == m then RecordCheck(db, m, check).transition else Nothing
    case ReEvaluate(k, now, suppressed) =>
      if k == m then Evaluate(db, m, SweepEvaluation(now, suppressed)).transition else Nothing
    case _ => Nothing
  }

  ghost function Run(db: Db, steps: seq<Step>): Db
    decreases |steps|
  {
    if steps == [] then db else Run(Next(db, steps[0]), steps[1..])
  }

  /** One line of a monitor's history: the transition and the severity it left open. */
  datatype Entry = Entry(transition: Transition, open: Option<Status>)

  ghost function Log(db: Db, steps: seq<Step>, m: MonitorId): seq<Entry>
    decreases |steps|
  {
    if steps == [] then [] else
    var t, db1 := Reported(db, steps[0], m), Next(db, steps[0]);
    (if t == Nothing then [] else [Entry(t, OpenStatus(db1.incidents, m))]) + Log(db1, steps[1..], m)
  }

  // ---------- The grammar of histories ----------

  predicate IsOpening(e: Entry) { e.transition == Opened && e.open.Some? && e.open.value != UP }
  predicate IsEscalation(e: Entry) { e == Entry(Escalated, Some(DOWN)) }
  predicate IsResolution(e: Entry) { e == Entry(Resolved, None) }

  /** A prefix of repeated episodes: opened, at most one escalation of a DEGRADED incident, resolved. */
  predicate Episodes(log: seq<Entry>)
    decreases |log|
  {
    log == [] ||
    (IsOpening(log[0]) && OpenTail(log[0].open.value, log[1..]))
  }

  /** What may follow while an incident of the given severity is open. */
  predicate OpenTail(severity: Status, log: seq<Entry>)
    decreases |log|
  {
    log == [] ||
    (IsResolution(log[0]) && Episodes(log[1..])) ||
    (severity == DEGRADED && IsEscalation(log[0]) && OpenTail(DOWN, log[1..]))
  }

  /** The severity a history leaves open. */
  function Left(start: Option<Status>, log: seq<Entry>): Option<Status> {
    if log == [] then start else log[|log| - 1].open
  }

  predicate Continues(open: Option<Status>, log: seq<Entry>) {
    match open
    case None => Episodes(log)
    case Some(s) => OpenTail(s, log)
  }

  function Openings(log: seq<Entry>): nat {
    if log == [] then 0 else (if log[0].transition == Opened then 1 else 0) + Openings(log[1..])
  }

  // ---------- The theorem ----------

  /** A monitor is in the table after such a step if it was before, or if the step creates it. */
  lemma HousekeepingEffect(db: Db, s: Step, m: MonitorId)
    requires IsHousekeeping(s)
    ensures Housekeeping(db, s).incidents == db.incidents && Housekeeping(db, s).nextId == db.nextId
    ensures m in Housekeeping(db, s).config.monitors <==> m in db.config.monitors || (s.NewMonitor? && s.m == m)
  {
  }

  lemma StampIsLawful(t: map<nat, Incident>, n: nat, i: nat, now: int, m: MonitorId)
    requires ValidIncidents(t, n) && i in t
    ensures var t' := t[i := t[i].(lastAlertAt := Some(now))];
      ValidIncidents(t', n) && IncidentsOf(t', m) == IncidentsOf(t, m) && OpenStatus(t', m) == OpenStatus(t, m)
  {
    var t' := t[i := t[i].(lastAlertAt := Some(now))];
    assert forall j, k :: IsOpen(t', j, k) <==> IsOpen(t, j, k);
    SameOpen(t, n, t', n, m);
  }

  lemma StampedEffect(db: Db, i: nat, now: int, m: MonitorId)
    requires Valid(db)
    ensures var db' := Stamped(db, i, now);
      && Valid(db') && db'.config == db.config && IncidentsOf(db'.incidents, m) == IncidentsOf(db.incidents, m)
      && OpenStatus(db'.incidents, m) == OpenStatus(db.incidents, m)
  {
    if i in db.incidents && db.incidents[i].resolvedAt.None? { StampIsLawful(db.incidents, db.nextId, i, now, m); }
  }

  lemma RecordedEffect(db: Db, m: MonitorId, c: Check)
    requires m in db.config.monitors
    ensures var db1 := Recorded(db, m, c);
      db1.config == db.config && db1.incidents == db.incidents && db1.nextId >= db.nextId
  {
  }

  /** What a step that reports t, and does not delete m, does to the incidents of m. */
  ghost predicate StepLaw(db: Db, db': Db, t: Transition, m: MonitorId) {
    && Valid(db') && (t != Nothing ==> m in db.config.monitors)
    && Moves(OpenStatus(db.incidents, m), t, OpenStatus(db'.incidents, m))
    && |IncidentsOf(db'.incidents, m)| == |IncidentsOf(db.incidents, m)| + (if t == Opened then 1 else 0)
  }

  predicate Deletes(s: Step, m: MonitorId) { s.DeleteMonitor? && s.m == m }
  predicate Creates(s: Step, m: MonitorId) { s.NewMonitor? && s.m == m }

  lemma EvaluationStep(db: Db, k: MonitorId, e: Evaluation, m: MonitorId)
    requires Valid(db)
    ensures var o := Evaluate(db, k, e); StepLaw(db, o.db, if k == m then o.transition else Nothing, m)
  {
    EvaluateEffect(db, k, e, m);
    FreshIsNew(db, m);
  }

  /** A step changes a monitor's open severity exactly as the transition it reports says. */
  lemma StepEffect(db: Db, s: Step, m: MonitorId)
    requires Valid(db)
    ensures Valid(Next(db, s)) && (!Deletes(s, m) ==> StepLaw(db, Next(db, s), Reported(db, s, m), m))
  {
    match s
    case Recheck(k, check) =>
      if k in db.config.monitors {
        RecordedEffect(db, k, check);
        EvaluationStep(Recorded(db, k, check), k, EvaluationOf(check), m);
      }
    case ReEvaluate(k, now, suppressed) =>
      EvaluationStep(db, k, SweepEvaluation(now, suppressed), m);
    case DeleteMonitor(k) =>
      DeletedEffect(db, k, m);
    case Repeat(i, now) =>
      StampedEffect(db, i, now, m);
    case _ =>
      HousekeepingEffect(db, s, m);
  }

  /** Which monitors exist: only a creation adds one, only a deletion removes one. */
  lemma StepMonitors(db: Db, s: Step, m: MonitorId)
    requires Valid(db)
    ensures m in Next(db, s).config.monitors <==> (m in db.config.monitors || Creates(s, m)) && !Deletes(s, m)
    ensures m !in db.config.monitors ==> Reported(db, s, m) == Nothing
  {
    match s
    case Recheck(k, check) =>
      if k in db.config.monitors {
        RecordedEffect(db, k, check);
        EvaluateEffect(Recorded(db, k, check), k, EvaluationOf(check), m);
      }
    case ReEvaluate(k, now, suppressed) =>
      EvaluateEffect(db, k, SweepEvaluation(now, suppressed), m);
    case DeleteMonitor(k) =>
    case Repeat(i, now) =>
    case _ =>
      HousekeepingEffect(db, s, m);
  }

  lemma FreshIsNew(db: Db, m: MonitorId)
    requires Valid(db)
    ensures |IncidentsOf(db.incidents, m) + {db.nextId}| == |IncidentsOf(db.incidents, m)| + 1
  {
    assert db.nextId !in IncidentsOf(db.incidents, m);
  }

  lemma DeletedEffect(db: Db, k: MonitorId, m: MonitorId)
    requires Valid(db)
    ensures Valid(Deleted(db, k))
    ensures m != k ==> OpenStatus(Deleted(db, k).incidents, m) == OpenStatus(db.incidents, m)
    ensures m != k ==> IncidentsOf(Deleted(db, k).incidents, m) == IncidentsOf(db.incidents, m)
  {
    var db' := Deleted(db, k);
    assert forall i, n :: IsOpen(db'.incidents, i, n) <==> IsOpen(db.incidents, i, n) && n != k;
    if m != k { SameOpen(db.incidents, db.nextId, db'.incidents, db'.nextId, m); }
  }

  predicate Created(steps: seq<Step>, m: MonitorId) {
    steps != [] && (Creates(steps[0], m) || Created(steps[1..], m))
  }

  /** Ids are generated fresh: a deleted one never comes back. */
  predicate NeverReused(steps: seq<Step>, m: MonitorId) {
    steps == [] || ((Deletes(steps[0], m) ==> !Created(steps[1..], m)) && NeverReused(steps[1..], m))
  }

  predicate NeverDeleted(steps: seq<Step>, m: MonitorId) {
    steps == [] || (!Deletes(steps[0], m) && NeverDeleted(steps[1..], m))
  }

  /** A monitor that does not exist has no history. */
  lemma {:induction false} AbsentIsQuiet(db: Db, steps: seq<Step>, m: MonitorId)
    requires Valid(db) && m !in db.config.monitors && !Created(steps, m)
    ensures Log(db, steps, m) == [] && Valid(Run(db, steps))
    decreases |steps|
  {
    if steps != [] {
      StepEffect(db, steps[0], m);
      StepMonitors(db, steps[0], m);
      AbsentIsQuiet(Next(db, steps[0]), steps[1..], m);
    }
  }

  /** How a step that keeps m carries the theorem from the rest of the run to the whole. */
  lemma HistoryStep(before: Option<Status>, t: Transition, middle: Option<Status>, rest: seq<Entry>)
    requires Moves(before, t, middle) && Continues(middle, rest)
    ensures var log := (if t == Nothing then [] else [Entry(t, middle)]) + rest;
      && Continues(before, log) && Left(before, log) == Left(middle, rest)
      && Openings(log) == Openings(rest) + if t == Opened then 1 else 0
  {
    if t != Nothing {
      var e := Entry(t, middle);
      assert ([e] + rest)[0] == e && ([e] + rest)[1..] == rest;
    } else {
      assert [] + rest == rest;
    }
  }

  /**
   * Over every run of every interleaving: at most one incident of each monitor is open at the end,
   * the monitor's history continues the grammar from where it started, and, unless the monitor
   * was deleted, the open severity is the one the history left and every row of its incidents
   * table stems from exactly one opening.
   */
  lemma {:induction false} RunsFollowTheGrammar(db: Db, steps: seq<Step>, m: MonitorId)
    requires Valid(db) && NeverReused(steps, m)
    ensures var db' := Run(db, steps); var log := Log(db, steps, m);
      && Valid(db') && Continues(OpenStatus(db.incidents, m), log)
      && (NeverDeleted(steps, m) ==> Accounted(db.incidents, db'.incidents, log, m))
    decreases |steps|
  {
    if steps != [] {
      var db1, t, tail := Next(db, steps[0]), Reported(db, steps[0], m), steps[1..];
      StepEffect(db, steps[0], m);
      if Deletes(steps[0], m) {
        StepMonitors(db, steps[0], m);
        AbsentIsQuiet(db1, tail, m);
        assert Log(db, steps, m) == [];
      } else {
        RunsFollowTheGrammar(db1, tail, m);
        HistoryStep(OpenStatus(db.incidents, m), t, OpenStatus(db1.incidents, m), Log(db1, tail, m));
      }
    }
  }

  /** The history tells the open severity, and each incident of the monitor stems from one opening. */
  ghost predicate Accounted(t: map<nat, Incident>, t': map<nat, Incident>, log: seq<Entry>, m: MonitorId) {
    && OpenStatus(t', m) == Left(OpenStatus(t, m), log)
    && |IncidentsOf(t', m)| == |IncidentsOf(t, m)| + Openings(log)
  }

  /** From a database with no incidents the history is a sequence of whole episodes and a prefix of one. */
  lemma FreshRunsAreEpisodes(db: Db, steps: seq<Step>, m: MonitorId)
    requires db.incidents == map[] && NeverReused(steps, m)
    ensures Episodes(Log(db, steps, m))
    ensures NeverDeleted(steps, m) ==> |IncidentsOf(Run(db, steps).incidents, m)| == Openings(Log(db, steps, m))
  {
    assert Valid(db);
    RunsFollowTheGrammar(db, steps, m);
    assert OpenStatus(db.incidents, m).None?;
    assert IncidentsOf(db.incidents, m) == {};
  }
}
