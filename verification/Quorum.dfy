/**
 * Cross-region quorum and incidents: the tables behind maintenance.record_region_check and
 * maintenance.evaluate_monitor_quorum, and each locked call as one function from a database
 * state to the next. Every call carries its own clock reading, and nothing makes the readings
 * of successive calls increase.
 */
module Quorum {
  import opened Types
  import opened Plans

  // ---------- Tables ----------

  type ChannelId = string
  type RecipientId = string

  datatype Source = SCHEDULED | VERIFICATION

  /** One row of monitor_region_status: the latest outcome a region reported. */
  datatype RegionStatus = RegionStatus(
    status: Status, latency: int, statusCode: Option<int>, message: Option<string>,
    source: Source, checkedAt: int)

  /** One row of region_verification_requests. `batch` and the region stand for the row's uuid. */
  datatype Request = Request(batch: nat, requestedAt: int, expiresAt: int, claimedAt: Option<int>)

  /** Alert texts, before formatting. */
  datatype Text =
    | QuorumText(unhealthy: nat, total: nat, reports: map<Region, RegionStatus>)
    | CheckText(message: Option<string>)

  datatype Incident = Incident(
    monitor: MonitorId, status: Status, statusCode: Option<int>, message: Text,
    startedAt: int, resolvedAt: Option<int>, lastAlertAt: Option<int>)

  datatype Destination = Destination(channel: string, target: string)

  datatype NotificationChannel = NotificationChannel(user: UserId, dest: Destination, enabled: bool)

  datatype AlertRecipient = AlertRecipient(org: OrgId, dest: Destination)

  datatype Monitor = Monitor(regions: seq<Region>, interval: Option<nat>, user: UserId, org: Option<OrgId>)

  /** Where an outbox row came from; exactly one source per row. */
  datatype AlertSource = ViaChannel(channel: ChannelId) | ViaRecipient(recipient: RecipientId)

  datatype OutboxRow = OutboxRow(
    monitor: MonitorId, dest: Destination, status: Status, message: Text,
    statusCode: Option<int>, latency: int, attempts: nat, nextAttemptAt: int)

  /** The tables the quorum functions only read. */
  datatype Config = Config(
    monitors: map<MonitorId, Monitor>,
    orgOwner: map<OrgId, UserId>,
    subscriptions: map<UserId, Subscription>,
    channels: map<ChannelId, NotificationChannel>,
    settings: map<(MonitorId, ChannelId), bool>,
    recipients: map<RecipientId, AlertRecipient>)

  datatype Db = Db(
    config: Config,
    heartbeats: map<Region, int>,
    statuses: map<MonitorId, map<Region, RegionStatus>>,
    requests: map<MonitorId, map<Region, Request>>,
    incidents: map<nat, Incident>,
    outbox: map<nat, map<AlertSource, OutboxRow>>,   // by announcement, then by source
    nextId: nat)

  /** The rows of a per-(monitor, region) table that belong to one monitor. */
  function RowsOf<V>(table: map<MonitorId, map<Region, V>>, m: MonitorId): map<Region, V> {
    if m in table then table[m] else map[]
  }

  // ---------- Evaluation set ----------

  const STALE_MULTIPLIER: nat := 3
  const ACTIVE_THRESHOLD: int := 60 * SECOND
  const VERIFICATION_WINDOW: int := 120 * SECOND
  const CONFIRM_RECENCY: int := 30 * SECOND
  const REQUEST_TTL: int := 60 * SECOND

  function OwnerOf(c: Config, mon: Monitor): UserId { PayerOf(c.orgOwner, mon.user, mon.org) }

  /** How long a SCHEDULED report of this monitor stays fresh. */
  function FreshWindow(c: Config, mon: Monitor): int {
    SqlEffectiveInterval(mon.interval, PlanOf(c.subscriptions, OwnerOf(c, mon))) * STALE_MULTIPLIER * SECOND
  }

  predicate IsFresh(row: RegionStatus, now: int, window: int) {
    row.checkedAt >= now - (if row.source == VERIFICATION then VERIFICATION_WINDOW else window)
  }

  function Active(db: Db, now: int): set<Region> {
    set r | r in db.heartbeats && db.heartbeats[r] >= now - ACTIVE_THRESHOLD
  }

  function Reporters(db: Db, m: MonitorId, now: int): set<Region>
    requires m in db.config.monitors
  {
    var rows := RowsOf(db.statuses, m);
    var mon := db.config.monitors[m];
    set r | r in rows && IsFresh(rows[r], now, FreshWindow(db.config, mon))
            && (r in Active(db, now) || r in mon.regions)
  }

  function Pending(db: Db, m: MonitorId, now: int): set<Region>
    requires m in db.config.monitors
  {
    var reqs := RowsOf(db.requests, m);
    set r | r in reqs && reqs[r].expiresAt >= now && r in Active(db, now) && r !in Reporters(db, m, now)
  }

  function Unhealthy(db: Db, m: MonitorId, now: int): set<Region>
    requires m in db.config.monitors
  {
    var rows := RowsOf(db.statuses, m);
    set r | r in Reporters(db, m, now) && rows[r].status != UP
  }

  function Worst(db: Db, m: MonitorId, now: int): Status
    requires m in db.config.monitors
  {
    var rows := RowsOf(db.statuses, m);
    if exists r :: r in Unhealthy(db, m, now) && rows[r].status == DOWN then DOWN else DEGRADED
  }

  /** The regions that count: everything that reported or is still expected to. */
  function Electorate(db: Db, m: MonitorId, now: int): set<Region>
    requires m in db.config.monitors
  {
    Reporters(db, m, now) + Pending(db, m, now)
  }

  predicate Majority(db: Db, m: MonitorId, now: int)
    requires m in db.config.monitors
  {
    2 * |Unhealthy(db, m, now)| > |Electorate(db, m, now)|
  }

  function Reports(db: Db, m: MonitorId, now: int): Text
    requires m in db.config.monitors
  {
    var rows := RowsOf(db.statuses, m);
    QuorumText(|Unhealthy(db, m, now)|, |Electorate(db, m, now)|,
               map r | r in Unhealthy(db, m, now) :: rows[r])
  }

  // ---------- Incidents ----------

  predicate IsOpen(t: map<nat, Incident>, i: nat, m: MonitorId) {
    i in t && t[i].monitor == m && t[i].resolvedAt.None?
  }

  /** The monitor's open incident, if it has one. */
  ghost function OpenIncident(t: map<nat, Incident>, m: MonitorId): (r: Option<nat>)
    ensures r.Some? ==> IsOpen(t, r.value, m)
    ensures r.None? ==> forall i :: !IsOpen(t, i, m)
  {
    if exists i :: IsOpen(t, i, m) then
      var i :| IsOpen(t, i, m);
      Some(i)
    else None
  }

  /** Severity of the monitor's open incident; None when every incident is resolved. */
  ghost function OpenStatus(t: map<nat, Incident>, m: MonitorId): Option<Status> {
    var open := OpenIncident(t, m);
    if open.Some? then Some(t[open.value].status) else None
  }

  /** At most one open incident per monitor, and ids below the supply. */
  ghost predicate ValidIncidents(t: map<nat, Incident>, nextId: nat) {
    && (forall i, j, m :: IsOpen(t, i, m) && IsOpen(t, j, m) ==> i == j)
    && (forall i :: i in t ==> i < nextId && t[i].status != UP)
  }

  ghost predicate Valid(db: Db) { ValidIncidents(db.incidents, db.nextId) }

  // ---------- Alert fan-out ----------

  /** Per-monitor override of a channel, inherited from the channel when absent. */
  predicate EffectivelyEnabled(c: Config, m: MonitorId, ch: ChannelId)
    requires ch in c.channels
  {
    if (m, ch) in c.settings then c.settings[(m, ch)] else c.channels[ch].enabled
  }

  predicate ChannelAlerts(c: Config, m: MonitorId, owner: UserId, ch: ChannelId) {
    ch in c.channels && c.channels[ch].user == owner && EffectivelyEnabled(c, m, ch)
  }

  predicate RecipientAlerts(c: Config, m: MonitorId, mon: Monitor, r: RecipientId) {
    && mon.org.Some?
    && r in c.recipients
    && c.recipients[r].org == mon.org.value
    && !exists ch :: ch in c.channels && ChannelAlerts(c, m, OwnerOf(c, mon), ch)
                     && c.channels[ch].dest == c.recipients[r].dest
  }

  /** The owner's channels that are on for the monitor. */
  function ChannelSources(c: Config, m: MonitorId, owner: UserId): set<AlertSource> {
    set ch | ch in c.channels && ChannelAlerts(c, m, owner, ch) :: ViaChannel(ch)
  }

  /** The org's recipients that no such channel already covers. */
  function RecipientSources(c: Config, m: MonitorId, mon: Monitor): set<AlertSource> {
    set r | r in c.recipients && RecipientAlerts(c, m, mon, r) :: ViaRecipient(r)
  }

  /** The sources that one announcement for the monitor goes through. */
  function AlertSources(c: Config, m: MonitorId, mon: Monitor): set<AlertSource> {
    ChannelSources(c, m, OwnerOf(c, mon)) + RecipientSources(c, m, mon)
  }

  function DestinationOf(c: Config, s: AlertSource): Destination {
    match s
    case ViaChannel(ch) => if ch in c.channels then c.channels[ch].dest else Destination("", "")
    case ViaRecipient(r) => if r in c.recipients then c.recipients[r].dest else Destination("", "")
  }

  /** One outbox row per source, due at once. */
  function RowsFor(c: Config, m: MonitorId, sources: set<AlertSource>, status: Status, text: Text,
                   statusCode: Option<int>, latency: int, now: int): (rows: map<AlertSource, OutboxRow>)
    ensures rows.Keys == sources
  {
    map s | s in sources :: OutboxRow(m, DestinationOf(c, s), status, text, statusCode, latency, 0, now)
  }

  /** Outbox rows of one announcement. */
  function AlertRows(c: Config, m: MonitorId, status: Status, text: Text,
                     statusCode: Option<int>, latency: int, now: int): map<AlertSource, OutboxRow>
    requires m in c.monitors
  {
    RowsFor(c, m, AlertSources(c, m, c.monitors[m]), status, text, statusCode, latency, now)
  }

  // ---------- maintenance.evaluate_monitor_quorum ----------

  datatype Transition = Nothing | Opened | Escalated | Resolved

  /** Arguments of an evaluation; `suppressed` is maintenance.in_maintenance at that moment. */
  datatype Evaluation = Evaluation(
    now: int, statusCode: Option<int>, latency: int, upMessage: Option<string>, suppressed: bool)

  datatype Outcome = Outcome(db: Db, transition: Transition, incident: Option<nat>)

  function Purge(rows: map<Region, RegionStatus>): map<Region, RegionStatus> {
    map r | r in rows && rows[r].source != VERIFICATION :: rows[r]
  }

  /** Fan the transition out, unless suppressed, and stamp the incident when anything went out. */
  function Announce(db: Db, m: MonitorId, e: Evaluation, t: Transition, i: nat, status: Status, text: Text): Outcome
    requires m in db.config.monitors && i in db.incidents
  {
    if e.suppressed then Outcome(db, t, Some(i)) else
    var rows := AlertRows(db.config, m, status, text, e.statusCode, e.latency, e.now);
    var stamped := if rows == map[] then db.incidents
                   else db.incidents[i := db.incidents[i].(lastAlertAt := Some(e.now))];
    Outcome(db.(outbox := db.outbox[db.nextId := rows], incidents := stamped, nextId := db.nextId + 1), t, Some(i))
  }

  /** A majority with no open incident: insert one with the worst reported status. */
  function OpenedDb(db: Db, m: MonitorId, e: Evaluation, worst: Status, text: Text): Db {
    var inc := Incident(m, worst, e.statusCode, text, e.now, None, None);
    db.(incidents := db.incidents[db.nextId := inc], nextId := db.nextId + 1)
  }

  /** The worst status is sticky: an incident that ever went DOWN stays DOWN. */
  function StickyStatus(was: Status, worst: Status): Status {
    if was == DOWN || worst == DOWN then DOWN else worst
  }

  function Refreshed(inc: Incident, worst: Status, text: Text, code: Option<int>): Incident {
    inc.(status := StickyStatus(inc.status, worst), message := text,
         statusCode := if code.Some? then code else inc.statusCode)
  }

  /** A majority with an open incident: refresh its severity, text and code. */
  function RefreshedDb(db: Db, e: Evaluation, i: nat, worst: Status, text: Text): Db
    requires i in db.incidents
  {
    db.(incidents := db.incidents[i := Refreshed(db.incidents[i], worst, text, e.statusCode)])
  }

  /** No majority with an open incident: resolve it and purge the confirmations. */
  function ResolvedDb(db: Db, m: MonitorId, e: Evaluation, i: nat): Db
    requires i in db.incidents
  {
    db.(
      incidents := db.incidents[i := db.incidents[i].(resolvedAt := Some(e.now))],
      statuses := db.statuses[m := Purge(RowsOf(db.statuses, m))],
      requests := db.requests - {m})
  }

  /** The transition that a vote and the open incident lead to. */
  function Decided(db: Db, m: MonitorId, e: Evaluation, majority: bool, worst: Status, text: Text, open: Option<nat>)
    : Outcome
    requires m in db.config.monitors && (open.Some? ==> open.value in db.incidents)
  {
    if majority then
      if open.None? then
        Announce(OpenedDb(db, m, e, worst, text), m, e, Opened, db.nextId, worst, text)
      else
        var i := open.value;
        var db1 := RefreshedDb(db, e, i, worst, text);
        var status := db1.incidents[i].status;
        if status != db.incidents[i].status then Announce(db1, m, e, Escalated, i, status, text)
        else Outcome(db1, Nothing, Some(i))
    else if open.Some? then
      Announce(ResolvedDb(db, m, e, open.value), m, e, Resolved, open.value, UP, CheckText(e.upMessage))
    else Outcome(db, Nothing, None)
  }

  ghost function Evaluate(db: Db, m: MonitorId, e: Evaluation): Outcome {
    if m !in db.config.monitors then Outcome(db, Nothing, None)
    else Decided(db, m, e, Majority(db, m, e.now), Worst(db, m, e.now), Reports(db, m, e.now),
                 OpenIncident(db.incidents, m))
  }

  // ---------- maintenance.record_region_check ----------

  datatype Check = Check(
    region: Region, status: Status, latency: int, statusCode: Option<int>, message: Option<string>,
    source: Source, now: int, suppressed: bool)

  /** Stored source: whether this region normally checks the monitor. */
  function StoredSource(mon: Monitor, region: Region): Source {
    if region in mon.regions then SCHEDULED else VERIFICATION
  }

  function Upsert(db: Db, m: MonitorId, c: Check): Db
    requires m in db.config.monitors
  {
    var row := RegionStatus(c.status, c.latency, c.statusCode, c.message,
                            StoredSource(db.config.monitors[m], c.region), c.now);
    db.(statuses := db.statuses[m := RowsOf(db.statuses, m)[c.region := row]])
  }

  predicate RecentlyChecked(db: Db, m: MonitorId, r: Region, now: int) {
    var rows := RowsOf(db.statuses, m);
    r in rows && rows[r].checkedAt >= now - CONFIRM_RECENCY
  }

  /** Other live regions that a failing scheduled check asks to confirm. */
  function ToConfirm(db: Db, m: MonitorId, region: Region, now: int): set<Region> {
    set r | r in Active(db, now) && r != region && !RecentlyChecked(db, m, r, now)
            && r !in RowsOf(db.requests, m)
  }

  function EnqueueConfirmations(db: Db, m: MonitorId, c: Check): Db {
    if c.source == SCHEDULED && c.status != UP then
      var asked := map r | r in ToConfirm(db, m, c.region, c.now)
                       :: Request(db.nextId, c.now, c.now + REQUEST_TTL, None);
      db.(requests := db.requests[m := RowsOf(db.requests, m) + asked], nextId := db.nextId + 1)
    else db
  }

  /** The state a check's quorum decision is taken in. */
  function Recorded(db: Db, m: MonitorId, c: Check): Db
    requires m in db.config.monitors
  {
    EnqueueConfirmations(Upsert(db, m, c), m, c)
  }

  function EvaluationOf(c: Check): Evaluation {
    Evaluation(c.now, c.statusCode, c.latency, c.message, c.suppressed)
  }

  ghost function RecordCheck(db: Db, m: MonitorId, c: Check): Outcome {
    if m !in db.config.monitors then Outcome(db, Nothing, None)
    else Evaluate(Recorded(db, m, c), m, EvaluationOf(c))
  }
}
