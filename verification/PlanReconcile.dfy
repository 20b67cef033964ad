/**
 * Keeping monitors within their plan through subscription changes: syncSubscription
 * (internal/api/handlers/subscriptions.go), ReconcileMonitorsToPlan and the billing scope
 * (internal/database/bun/store.go), over runs that mix them with monitor creates and updates.
 */
module PlanReconcile {
  import opened Types
  import opened Plans
  import opened PlanGates

  // ---------- One monitor ----------

  function ClampInterval(m: Monitor, before: PlanLimits, after: PlanLimits, now: int): Monitor {
    if after.minInterval > before.minInterval && m.interval.Some? && m.interval.value < after.minInterval
    then m.(interval := Some(after.minInterval), updatedAt := now) else m
  }

  function TrimRegions(m: Monitor, after: PlanLimits, now: int): Monitor {
    if after.maxRegions.Some? && |m.regions| > after.maxRegions.value
    then m.(regions := m.regions[..after.maxRegions.value], updatedAt := now) else m
  }

  function ClearThreshold(m: Monitor, before: PlanLimits, after: PlanLimits, now: int): Monitor {
    if before.customDegradedThreshold && !after.customDegradedThreshold && m.degradedThreshold.Some?
    then m.(degradedThreshold := None, updatedAt := now) else m
  }

  predicate LosesExpiry(before: PlanLimits, after: PlanLimits) {
    (before.sslMonitoring && !after.sslMonitoring) || (before.domainMonitoring && !after.domainMonitoring)
  }

  function ClearExpiry(m: Monitor, before: PlanLimits, after: PlanLimits, now: int): Monitor {
    if LosesExpiry(before, after) && (m.certCheck || m.domainCheck)
    then m.(certCheck := false, domainCheck := false, updatedAt := now) else m
  }

  function ClearRepeats(m: Monitor, before: PlanLimits, after: PlanLimits, now: int): Monitor {
    if before.maxAlertRepeats > 0 && after.maxAlertRepeats == 0 && m.repeatInterval.Some?
    then m.(repeatInterval := None, repeatCount := None, updatedAt := now) else m
  }

  function Capped(m: Monitor, before: PlanLimits, after: PlanLimits, now: int): Monitor {
    TrimRegions(ClampInterval(m, before, after, now), after, now)
  }

  function Cleared(m: Monitor, before: PlanLimits, after: PlanLimits, now: int): Monitor {
    ClearRepeats(ClearExpiry(ClearThreshold(m, before, after, now), before, after, now), before, after, now)
  }

  /** The five updates of ReconcileMonitorsToPlan, in order. */
  function Snapped(m: Monitor, before: PlanLimits, after: PlanLimits, now: int): Monitor {
    Cleared(Capped(m, before, after, now), before, after, now)
  }

  function Reconciled(m: Monitor, oldPlan: Plan, newPlan: Plan, now: int): Monitor {
    Snapped(m, LimitsForPlan(oldPlan), LimitsForPlan(newPlan), now)
  }

  /** The last three updates leave interval, regions and scope alone. */
  lemma ClearingKeeps(m: Monitor, before: PlanLimits, after: PlanLimits, now: int)
    ensures var r := Cleared(m, before, after, now);
      && r.interval == m.interval && r.regions == m.regions
      && r.user == m.user && r.org == m.org && r.kind == m.kind && r.timeout == m.timeout
  {
  }

  /** Only as much is lost as the plan demands: an override is raised to the floor, the first regions stay. */
  lemma ReconcileLosesLittle(m: Monitor, before: PlanLimits, after: PlanLimits, now: int)
    requires MeetsPlan(m, before)
    ensures var r := Snapped(m, before, after, now);
      && r.interval == (if m.interval.Some? && m.interval.value < after.minInterval
                        then Some(after.minInterval) else m.interval)
      && r.regions == (if after.maxRegions.Some? && after.maxRegions.value < |m.regions|
                       then m.regions[..after.maxRegions.value] else m.regions)
  {
    ClearingKeeps(Capped(m, before, after, now), before, after, now);
  }

  /** The first two updates leave the optional features and the scope alone. */
  lemma CappingKeeps(m: Monitor, before: PlanLimits, after: PlanLimits, now: int)
    ensures var r := Capped(m, before, after, now);
      && r.degradedThreshold == m.degradedThreshold
      && r.repeatInterval == m.repeatInterval && r.repeatCount == m.repeatCount
      && r.certCheck == m.certCheck && r.domainCheck == m.domainCheck
      && r.user == m.user && r.org == m.org && r.kind == m.kind && r.timeout == m.timeout
  {
  }

  /** Between any two actual plans the last three updates switch off what the new plan does not offer. */
  lemma ClearedIsOffered(m: Monitor, oldPlan: Plan, newPlan: Plan, now: int)
    requires FeaturesOffered(m, LimitsForPlan(oldPlan))
    ensures FeaturesOffered(Cleared(m, LimitsForPlan(oldPlan), LimitsForPlan(newPlan), now), LimitsForPlan(newPlan))
  {
  }

  /** From any plan to any other: what met the old plan meets the new one. */
  lemma ReconciledMeetsPlan(m: Monitor, oldPlan: Plan, newPlan: Plan, now: int)
    requires MeetsPlan(m, LimitsForPlan(oldPlan))
    ensures MeetsPlan(Reconciled(m, oldPlan, newPlan, now), LimitsForPlan(newPlan))
  {
    var before, after := LimitsForPlan(oldPlan), LimitsForPlan(newPlan);
    CappingKeeps(m, before, after, now);
    ClearedIsOffered(Capped(m, before, after, now), oldPlan, newPlan, now);
    ReconcileLosesLittle(m, before, after, now);
    ReconcileKeepsScope(m, before, after, now);
  }

  /** A monitor that already meets the new plan is not touched, not even its timestamp. */
  lemma ReconciledUntouched(m: Monitor, oldPlan: Plan, newPlan: Plan, now: int)
    requires MeetsPlan(m, LimitsForPlan(newPlan))
    ensures Reconciled(m, oldPlan, newPlan, now) == m
  {
  }

  /** Reconciling again, from whatever plan and at whatever time, changes nothing. */
  lemma ReconcileIdempotent(m: Monitor, oldPlan: Plan, newPlan: Plan, now: int, again: Plan, later: int)
    requires MeetsPlan(m, LimitsForPlan(oldPlan))
    ensures var r := Reconciled(m, oldPlan, newPlan, now); Reconciled(r, again, newPlan, later) == r
  {
    ReconciledMeetsPlan(m, oldPlan, newPlan, now);
    ReconciledUntouched(Reconciled(m, oldPlan, newPlan, now), again, newPlan, later);
  }

  lemma CappingStamps(m: Monitor, before: PlanLimits, after: PlanLimits, now: int)
    ensures var r := Capped(m, before, after, now); r == m || r.updatedAt == now
  {
  }

  lemma ClearingStamps(m: Monitor, before: PlanLimits, after: PlanLimits, now: int)
    ensures var r := Cleared(m, before, after, now); r == m || r.updatedAt == now
  {
  }

  /** A monitor that is changed gets a new timestamp, so the scheduler restarts its job. */
  lemma ReconcileStamps(m: Monitor, before: PlanLimits, after: PlanLimits, now: int)
    ensures var r := Snapped(m, before, after, now); r == m || r.updatedAt == now
  {
    CappingStamps(m, before, after, now);
    ClearingStamps(Capped(m, before, after, now), before, after, now);
  }

  /** A feature the new plan still offers keeps its settings. */
  lemma ReconcileKeepsOffered(m: Monitor, before: PlanLimits, after: PlanLimits, now: int)
    ensures var r := Snapped(m, before, after, now);
      && (after.customDegradedThreshold ==> r.degradedThreshold == m.degradedThreshold)
      && (after.maxAlertRepeats > 0 ==> r.repeatInterval == m.repeatInterval && r.repeatCount == m.repeatCount)
      && (after.sslMonitoring && after.domainMonitoring ==>
            r.certCheck == m.certCheck && r.domainCheck == m.domainCheck)
  {
    CappingKeeps(m, before, after, now);
  }

  lemma ReconcileKeepsScope(m: Monitor, before: PlanLimits, after: PlanLimits, now: int)
    ensures var r := Snapped(m, before, after, now);
      r.user == m.user && r.org == m.org && r.kind == m.kind && r.timeout == m.timeout
  {
    CappingKeeps(m, before, after, now);
    ClearingKeeps(Capped(m, before, after, now), before, after, now);
  }

  // ---------- The tables ----------

  datatype World = World(
    monitors: map<MonitorId, Monitor>,
    owners: map<OrgId, UserId>,
    subscriptions: map<UserId, Subscription>)

  function BillingOwner(w: World, m: Monitor): UserId { PayerOf(w.owners, m.user, m.org) }

  /** billingScopeClause. */
  predicate InScope(w: World, m: Monitor, user: UserId) {
    (m.user == user && m.org.None?) || (m.org.Some? && m.org.value in w.owners && w.owners[m.org.value] == user)
  }

  function Pool(w: World, user: UserId): set<MonitorId> {
    set id | id in w.monitors && InScope(w, w.monitors[id], user)
  }

  /** Every monitor's organization exists, and every monitor meets the plan of whoever pays for it. */
  predicate Compliant(w: World) {
    forall id :: id in w.monitors ==>
      && (w.monitors[id].org.Some? ==> w.monitors[id].org.value in w.owners)
      && MeetsPlan(w.monitors[id], LimitsForPlan(PlanOf(w.subscriptions, BillingOwner(w, w.monitors[id]))))
  }

  // ---------- Steps ----------

  datatype Event =
    | FoundOrg(newOrg: OrgId, owner: UserId)
    | Create(id: MonitorId, user: UserId, org: Option<OrgId>, create: CreateRequest, now: int)
    | Update(id: MonitorId, update: UpdateRequest, now: int)
    | Delete(id: MonitorId)
    | Sync(subscriber: UserId, sub: Subscription, now: int)

  predicate Enabled(w: World, e: Event) {
    match e
    case FoundOrg(org, _) => org !in w.owners
    case Create(id, _, org, _, _) => id !in w.monitors && (org.Some? ==> org.value in w.owners)
    case _ => true
  }

  /** The handler's gates, then the quota check in the insert's transaction. */
  predicate Creates(w: World, user: UserId, org: Option<OrgId>, r: CreateRequest, d: Deployment) {
    var payer := PayerOf(w.owners, user, org);
    var limits := LimitsForPlan(PlanOf(w.subscriptions, payer));
    CreateVerdict(r, limits, d) == Accepted && |Pool(w, payer)| < limits.maxMonitors
  }

  function SnappedTable(monitors: map<MonitorId, Monitor>, scope: set<MonitorId>, before: PlanLimits,
                        after: PlanLimits, now: int)
    : map<MonitorId, Monitor>
  {
    map id | id in monitors :: if id in scope then Snapped(monitors[id], before, after, now) else monitors[id]
  }

  predicate IsSnapped(table: map<MonitorId, Monitor>, monitors: map<MonitorId, Monitor>, scope: set<MonitorId>,
                      before: PlanLimits, after: PlanLimits, now: int)
  {
    table.Keys == monitors.Keys &&
    forall id :: id in monitors ==>
      table[id] == if id in scope then Snapped(monitors[id], before, after, now) else monitors[id]
  }

  lemma SnappedIsTable(table: map<MonitorId, Monitor>, monitors: map<MonitorId, Monitor>, scope: set<MonitorId>,
                       before: PlanLimits, after: PlanLimits, now: int)
    requires IsSnapped(table, monitors, scope, before, after, now)
    ensures table == SnappedTable(monitors, scope, before, after, now)
  {
  }

  /** ReconcileMonitorsToPlan over the billing scope. */
  function ReconciledTable(w: World, user: UserId, oldPlan: Plan, newPlan: Plan, now: int): map<MonitorId, Monitor> {
    SnappedTable(w.monitors, Pool(w, user), LimitsForPlan(oldPlan), LimitsForPlan(newPlan), now)
  }

  /** syncSubscription, its reconcile succeeding. */
  function Synced(w: World, user: UserId, sub: Subscription, now: int): World {
    var oldPlan, newPlan := PlanOf(w.subscriptions, user), EffectivePlan(Some(sub));
    var upserted := w.(subscriptions := w.subscriptions[user := sub]);
    if oldPlan == newPlan then upserted
    else upserted.(monitors := ReconciledTable(w, user, oldPlan, newPlan, now))
  }

  function Step(w: World, e: Event, d: Deployment): World {
    match e
    case FoundOrg(org, owner) => w.(owners := w.owners[org := owner])
    case Create(id, user, org, r, now) =>
      if Creates(w, user, org, r, d) then w.(monitors := w.monitors[id := Created(r, user, org, now)]) else w
    case Update(id, r, now) =>
      if id !in w.monitors then w else
      var m := w.monitors[id];
      var limits := LimitsForPlan(PlanOf(w.subscriptions, BillingOwner(w, m)));
      if UpdateVerdict(m, r, limits, d) == Accepted then w.(monitors := w.monitors[id := Updated(m, r, now)]) else w
    case Delete(id) => w.(monitors := w.monitors - {id})
    case Sync(user, sub, now) => Synced(w, user, sub, now)
  }

  function Run(w: World, events: seq<Event>, d: Deployment): World {
    if events == [] then w else Step(Run(w, events[..|events| - 1], d), events[|events| - 1], d)
  }

  predicate Legal(w: World, events: seq<Event>, d: Deployment) {
    forall i :: 0 <= i < |events| ==> Enabled(Run(w, events[..i], d), events[i])
  }

  // ---------- Compliance over runs ----------

  /** What a sync makes of one monitor. */
  function SyncedMonitor(w: World, m: Monitor, user: UserId, sub: Subscription, now: int): Monitor {
    if InScope(w, m, user) then Reconciled(m, PlanOf(w.subscriptions, user), EffectivePlan(Some(sub)), now) else m
  }

  lemma SyncedMonitorMeets(w: World, m: Monitor, user: UserId, sub: Subscription, now: int)
    requires m.org.Some? ==> m.org.value in w.owners
    requires MeetsPlan(m, LimitsForPlan(PlanOf(w.subscriptions, BillingOwner(w, m))))
    ensures var m' := SyncedMonitor(w, m, user, sub, now);
      && m'.user == m.user && m'.org == m.org
      && MeetsPlan(m', LimitsForPlan(PlanOf(w.subscriptions[user := sub], BillingOwner(w, m))))
  {
    var oldPlan, newPlan := PlanOf(w.subscriptions, user), EffectivePlan(Some(sub));
    if InScope(w, m, user) {
      ReconcileKeepsScope(m, LimitsForPlan(oldPlan), LimitsForPlan(newPlan), now);
      ReconciledMeetsPlan(m, oldPlan, newPlan, now);
    }
  }

  /** A sync that leaves the effective plan alone would have found nothing to change. */
  lemma SyncedTable(w: World, user: UserId, sub: Subscription, now: int, id: MonitorId)
    requires Compliant(w) && id in w.monitors
    ensures id in Synced(w, user, sub, now).monitors
    ensures Synced(w, user, sub, now).monitors[id] == SyncedMonitor(w, w.monitors[id], user, sub, now)
  {
    var m := w.monitors[id];
    assert id in Pool(w, user) <==> InScope(w, m, user);
    if InScope(w, m, user) && PlanOf(w.subscriptions, user) == EffectivePlan(Some(sub)) {
      ReconciledUntouched(m, PlanOf(w.subscriptions, user), EffectivePlan(Some(sub)), now);
    }
  }

  lemma SyncKeepsCompliance(w: World, user: UserId, sub: Subscription, now: int)
    requires Compliant(w)
    ensures Compliant(Synced(w, user, sub, now))
  {
    var w' := Synced(w, user, sub, now);
    forall id | id in w'.monitors
      ensures w'.monitors[id].org.Some? ==> w'.monitors[id].org.value in w'.owners
      ensures MeetsPlan(w'.monitors[id], LimitsForPlan(PlanOf(w'.subscriptions, BillingOwner(w', w'.monitors[id]))))
    {
      SyncedMonitorMeets(w, w.monitors[id], user, sub, now);
      SyncedTable(w, user, sub, now, id);
    }
  }

  lemma PutKeepsCompliance(w: World, id: MonitorId, m: Monitor)
    requires Compliant(w) && (m.org.Some? ==> m.org.value in w.owners)
    requires MeetsPlan(m, LimitsForPlan(PlanOf(w.subscriptions, BillingOwner(w, m))))
    ensures Compliant(w.(monitors := w.monitors[id := m]))
  {
    var w' := w.(monitors := w.monitors[id := m]);
    assert forall x :: BillingOwner(w', x) == BillingOwner(w, x);
  }

  lemma StepKeepsCompliance(w: World, e: Event, d: Deployment)
    requires Compliant(w) && Enabled(w, e)
    ensures Compliant(Step(w, e, d))
  {
    match e
    case FoundOrg(org, owner) =>
      assert forall id :: id in w.monitors ==>
        BillingOwner(w, w.monitors[id]) == BillingOwner(Step(w, e, d), w.monitors[id]);
    case Create(id, user, org, r, now) =>
      if Creates(w, user, org, r, d) {
        CreatedMeetsPlan(r, LimitsForPlan(PlanOf(w.subscriptions, PayerOf(w.owners, user, org))), d, user, org, now);
        PutKeepsCompliance(w, id, Created(r, user, org, now));
      }
    case Update(id, r, now) =>
      if id in w.monitors {
        var m := w.monitors[id];
        var limits := LimitsForPlan(PlanOf(w.subscriptions, BillingOwner(w, m)));
        if UpdateVerdict(m, r, limits, d) == Accepted {
          UpdatedMeetsPlan(m, r, limits, d, now);
          PutKeepsCompliance(w, id, Updated(m, r, now));
        }
      }
    case Delete(id) =>
    case Sync(user, sub, now) => SyncKeepsCompliance(w, user, sub, now);
  }

  /** Over any run, every monitor stays within the plan of whoever pays for it. */
  lemma {:induction false} RunsStayCompliant(w: World, events: seq<Event>, d: Deployment)
    requires Compliant(w) && Legal(w, events, d)
    ensures Compliant(Run(w, events, d))
  {
    if events != [] {
      var init := events[..|events| - 1];
      assert forall i :: 0 <= i < |init| ==> init[..i] == events[..i];
      RunsStayCompliant(w, init, d);
      StepKeepsCompliance(Run(w, init, d), events[|events| - 1], d);
    }
  }

  /** So every monitor runs no more often than its plan allows, override or not. */
  lemma FloorHolds(w: World, events: seq<Event>, d: Deployment, id: MonitorId)
    requires Compliant(w) && Legal(w, events, d) && id in Run(w, events, d).monitors
    ensures var end := Run(w, events, d);
      var m, plan := end.monitors[id], PlanOf(end.subscriptions, BillingOwner(end, end.monitors[id]));
      && m.timeout >= 0 && (m.interval.Some? ==> m.interval.value >= 0)
      && EffectiveInterval(if m.interval.Some? then Some(m.interval.value) else None, plan, m.timeout) >=
         LimitsForPlan(plan).minInterval
  {
    RunsStayCompliant(w, events, d);
  }

  // ---------- Deleting an organization ----------

  /** ON DELETE SET NULL: the organization's monitors fall to their creators. */
  function OrgDeleted(w: World, org: OrgId): World {
    w.(owners := w.owners - {org},
       monitors := map id | id in w.monitors ::
         if w.monitors[id].org == Some(org) then w.monitors[id].(org := None) else w.monitors[id])
  }

  /** Nothing reconciles them: compliance survives exactly when each already meets its creator's own plan. */
  lemma OrgDeletionExact(w: World, org: OrgId)
    requires Compliant(w)
    ensures Compliant(OrgDeleted(w, org)) <==>
            forall id :: id in w.monitors && w.monitors[id].org == Some(org) ==>
              MeetsPlan(w.monitors[id], LimitsForPlan(PlanOf(w.subscriptions, w.monitors[id].user)))
  {
    var w' := OrgDeleted(w, org);
    forall id | id in w.monitors
      ensures if w.monitors[id].org == Some(org)
              then (forall limits :: MeetsPlan(w'.monitors[id], limits) <==> MeetsPlan(w.monitors[id], limits))
                   && BillingOwner(w', w'.monitors[id]) == w.monitors[id].user && w'.monitors[id].org.None?
              else w'.monitors[id] == w.monitors[id]
                   && BillingOwner(w', w.monitors[id]) == BillingOwner(w, w.monitors[id])
    {
    }
  }

  /** A five-minute-plan member's monitor in an ENTERPRISE organization. */
  lemma OrgDeletionBreaks()
    ensures exists w, org :: Compliant(w) && !Compliant(OrgDeleted(w, org))
  {
    var m := Monitor("member", Some("org"), HTTP, Some(60), 30, ["ca-east"], None, None, None, false, false, 0);
    var w := World(map["m" := m], map["org" := "owner"], map["owner" := Subscription(ENTERPRISE, ACTIVE)]);
    assert Compliant(w);
    assert OrgDeleted(w, "org").monitors["m"].interval == Some(60);
  }

  // ---------- The monitor quota ----------

  lemma PutPool(w: World, id: MonitorId, m: Monitor, user: UserId)
    ensures Pool(w.(monitors := w.monitors[id := m]), user) ==
            if InScope(w, m, user) then Pool(w, user) + {id} else Pool(w, user) - {id}
  {
  }

  lemma SyncKeepsPool(w: World, user: UserId, sub: Subscription, now: int, other: UserId)
    requires Compliant(w)
    ensures Pool(Synced(w, user, sub, now), other) == Pool(w, other)
  {
    forall id | id in w.monitors
      ensures id in Pool(Synced(w, user, sub, now), other) <==> id in Pool(w, other)
    {
      SyncedMonitorMeets(w, w.monitors[id], user, sub, now);
      SyncedTable(w, user, sub, now, id);
    }
  }

  lemma StepKeepsPool(w: World, e: Event, d: Deployment, user: UserId)
    requires Compliant(w) && Enabled(w, e) && !e.Create?
    ensures |Pool(Step(w, e, d), user)| <= |Pool(w, user)|
  {
    match e
    case FoundOrg(_, _) => SubsetSize(Pool(Step(w, e, d), user), Pool(w, user));
    case Update(id, r, now) =>
      if id in w.monitors {
        var m := Updated(w.monitors[id], r, now);
        PutPool(w, id, m, user);
        SubsetSize(Pool(w.(monitors := w.monitors[id := m]), user), Pool(w, user));
      }
    case Delete(_) => SubsetSize(Pool(Step(w, e, d), user), Pool(w, user));
    case Sync(subscriber, sub, now) => SyncKeepsPool(w, subscriber, sub, now, user);
  }

  function Quota(w: World, user: UserId): nat { LimitsForPlan(PlanOf(w.subscriptions, user)).maxMonitors }

  function Larger(a: nat, b: nat): nat { if a < b then b else a }

  lemma PutWithinQuota(w: World, id: MonitorId, m: Monitor, user: UserId, cap: nat)
    requires |Pool(w, user)| <= cap && (InScope(w, m, user) ==> |Pool(w, user)| < cap)
    ensures |Pool(w.(monitors := w.monitors[id := m]), user)| <= cap
  {
    PutPool(w, id, m, user);
    SubsetSize(Pool(w, user) - {id}, Pool(w, user));
  }

  /** An accepted create leaves the payer's pool within the payer's current quota, and no other pool larger. */
  lemma CreateWithinQuota(w: World, id: MonitorId, user: UserId, org: Option<OrgId>, r: CreateRequest, now: int,
                          d: Deployment, other: UserId)
    requires id !in w.monitors && Creates(w, user, org, r, d)
    ensures var w', payer := Step(w, Create(id, user, org, r, now), d), PayerOf(w.owners, user, org);
      && |Pool(w', payer)| <= Quota(w', payer)
      && (other != payer ==> |Pool(w', other)| <= |Pool(w, other)|)
  {
    var payer, m := PayerOf(w.owners, user, org), Created(r, user, org, now);
    assert InScope(w, m, other) ==> other == payer;
    PutWithinQuota(w, id, m, payer, Quota(w, payer));
    if other != payer { PutWithinQuota(w, id, m, other, |Pool(w, other)|); }
  }

  lemma CreateKeepsPool(w: World, e: Event, d: Deployment, user: UserId)
    requires e.Create? && Enabled(w, e)
    ensures |Pool(Step(w, e, d), user)| <= Larger(|Pool(w, user)|, Quota(w, user))
  {
    var created := Creates(w, e.user, e.org, e.create, d);
    if created { CreateWithinQuota(w, e.id, e.user, e.org, e.create, e.now, d, user); }
  }

  /** At every point of the run the user's plan allows at most `cap` monitors. */
  predicate QuotaAtMost(w: World, events: seq<Event>, d: Deployment, user: UserId, cap: nat) {
    Quota(Run(w, events, d), user) <= cap &&
    (events == [] || QuotaAtMost(w, events[..|events| - 1], d, user, cap))
  }

  /**
   * The quota is shared by a payer's personal and organization monitors: a run during which it is at
   * most `cap`, as one that keeps a plan, leaves the pool within the larger of its start and `cap`.
   */
  lemma {:induction false} PoolsStayBounded(w: World, events: seq<Event>, d: Deployment, user: UserId, cap: nat)
    requires Compliant(w) && Legal(w, events, d) && QuotaAtMost(w, events, d, user, cap)
    ensures |Pool(Run(w, events, d), user)| <= Larger(|Pool(w, user)|, cap)
  {
    if events != [] {
      var init, last := events[..|events| - 1], events[|events| - 1];
      assert forall i :: 0 <= i < |init| ==> init[..i] == events[..i];
      PoolsStayBounded(w, init, d, user, cap);
      RunsStayCompliant(w, init, d);
      if last.Create? {
        CreateKeepsPool(Run(w, init, d), last, d, user);
      } else {
        StepKeepsPool(Run(w, init, d), last, d, user);
      }
    }
  }

  /** A subscription change removes no monitor: the pool exceeds the new quota exactly when it was larger before. */
  lemma DowngradeExceedsExact(w: World, user: UserId, sub: Subscription, now: int)
    requires Compliant(w)
    ensures var w' := Synced(w, user, sub, now);
      |Pool(w', user)| > Quota(w', user) <==> |Pool(w, user)| > LimitsForPlan(EffectivePlan(Some(sub))).maxMonitors
  {
    SyncKeepsPool(w, user, sub, now, user);
  }

  /** An organization's deletion hands each of its monitors to the pool of the member who created it. */
  lemma OrgDeletionMovesPools(w: World, org: OrgId, user: UserId)
    requires Compliant(w)
    ensures Pool(OrgDeleted(w, org), user) ==
            (set id | id in Pool(w, user) && w.monitors[id].org != Some(org)) +
            (set id | id in w.monitors && w.monitors[id].org == Some(org) && w.monitors[id].user == user)
    ensures Quota(OrgDeleted(w, org), user) == Quota(w, user)
  {
  }

  // ---------- The handlers and the store ----------

  class PlanStore {
    const deployment: Deployment
    var monitors: map<MonitorId, Monitor>
    var owners: map<OrgId, UserId>
    var subscriptions: map<UserId, Subscription>

    ghost function View(): World
      reads this
    {
      World(monitors, owners, subscriptions)
    }

    /** ReconcileMonitorsToPlan: up to five bulk updates of the billing scope. */
    method ReconcileMonitorsToPlan(user: UserId, oldPlan: Plan, newPlan: Plan, now: int) returns (total: nat)
      modifies this`monitors
      ensures monitors == ReconciledTable(old(View()), user, oldPlan, newPlan, now)
      ensures total == 0 ==> monitors == old(monitors)
    {
      var before, after := LimitsForPlan(oldPlan), LimitsForPlan(newPlan);
      var scope := set id | id in monitors && InScopeNow(monitors[id], user);
      assert scope == Pool(View(), user);
      total := SnapScope(scope, before, after, now);
      SnappedIsTable(monitors, old(monitors), scope, before, after, now);
    }

    method SnapScope(scope: set<MonitorId>, before: PlanLimits, after: PlanLimits, now: int) returns (total: nat)
      requires scope <= monitors.Keys
      modifies this`monitors
      ensures IsSnapped(monitors, old(monitors), scope, before, after, now)
      ensures total == 0 ==> monitors == old(monitors)
    {
      var capped := CapScope(scope, before, after, now);
      var cleared := ClearScope(scope, before, after, now);
      total := capped + cleared;
    }

    method CapScope(scope: set<MonitorId>, before: PlanLimits, after: PlanLimits, now: int) returns (total: nat)
      requires scope <= monitors.Keys
      modifies this`monitors
      ensures monitors.Keys == old(monitors).Keys
      ensures forall id :: id in monitors ==>
        monitors[id] == if id in scope then Capped(old(monitors)[id], before, after, now) else old(monitors)[id]
      ensures total == 0 ==> monitors == old(monitors)
    {
      var n1 := UpdateWhere(scope, after.minInterval > before.minInterval, m => ClampInterval(m, before, after, now));
      var n2 := UpdateWhere(scope, after.maxRegions.Some?, m => TrimRegions(m, after, now));
      total := n1 + n2;
    }

    method ClearScope(scope: set<MonitorId>, before: PlanLimits, after: PlanLimits, now: int) returns (total: nat)
      requires scope <= monitors.Keys
      modifies this`monitors
      ensures monitors.Keys == old(monitors).Keys
      ensures forall id :: id in monitors ==>
        monitors[id] == if id in scope then Cleared(old(monitors)[id], before, after, now) else old(monitors)[id]
      ensures total == 0 ==> monitors == old(monitors)
    {
      var n1 := UpdateWhere(scope, before.customDegradedThreshold && !after.customDegradedThreshold,
                            m => ClearThreshold(m, before, after, now));
      var n2 := UpdateWhere(scope, LosesExpiry(before, after), m => ClearExpiry(m, before, after, now));
      var n3 := UpdateWhere(scope, before.maxAlertRepeats > 0 && after.maxAlertRepeats == 0,
                            m => ClearRepeats(m, before, after, now));
      total := n1 + n2 + n3;
    }

    predicate InScopeNow(m: Monitor, user: UserId)
      reads this
    {
      (m.user == user && m.org.None?) || (m.org.Some? && m.org.value in owners && owners[m.org.value] == user)
    }

    /** One guarded UPDATE monitors SET … WHERE in scope and changed by it; the rows affected. */
    method UpdateWhere(scope: set<MonitorId>, guard: bool, f: Monitor -> Monitor) returns (rows: nat)
      requires scope <= monitors.Keys && (!guard ==> forall m :: f(m) == m)
      modifies this`monitors
      ensures monitors.Keys == old(monitors).Keys
      ensures forall id :: id in monitors ==>
        monitors[id] == if id in scope then f(old(monitors)[id]) else old(monitors)[id]
      ensures rows == 0 ==> monitors == old(monitors)
    {
      if !guard { return 0; }
      var hit := set id | id in scope && f(monitors[id]) != monitors[id];
      rows := |hit|;
      monitors := map id | id in monitors :: if id in hit then f(monitors[id]) else monitors[id];
    }

    /** syncSubscription. */
    method SyncSubscription(user: UserId, sub: Subscription, now: int)
      modifies this`monitors, this`subscriptions
      ensures View() == Synced(old(View()), user, sub, now)
    {
      var prev := if user in subscriptions then Some(subscriptions[user]) else None;
      subscriptions := subscriptions[user := sub];
      var oldPlan, newPlan := EffectivePlan(prev), EffectivePlan(Some(sub));
      if oldPlan != newPlan {
        var n := ReconcileMonitorsToPlan(user, oldPlan, newPlan, now);
      }
    }

    /** The plan of a billing subject. */
    method PlanForUser(user: UserId) returns (plan: Plan)
      ensures plan == PlanOf(subscriptions, user)
    {
      if user !in subscriptions { return FREE; }
      if subscriptions[user].status == CANCELED { return FREE; }
      return subscriptions[user].plan;
    }

    /** Whose subscription governs a workspace. */
    method BillingSubject(user: UserId, org: Option<OrgId>) returns (payer: UserId)
      ensures payer == PayerOf(owners, user, org)
    {
      payer := user;
      if org.Some? && org.value in owners { payer := owners[org.value]; }
    }

    /** The create handler, with the quota check of the insert's transaction. */
    method CreateMonitor(id: MonitorId, user: UserId, org: Option<OrgId>, r: CreateRequest, now: int)
      returns (outcome: Outcome)
      requires id !in monitors && (org.Some? ==> org.value in owners)
      modifies this`monitors
      ensures View() == Step(old(View()), Create(id, user, org, r, now), deployment)
      ensures var w, payer := old(View()), PayerOf(owners, user, org);
        && (outcome == Accepted <==>
              && AdmissibleCreate(r, LimitsForPlan(PlanOf(subscriptions, payer)), deployment)
              && |Pool(w, payer)| < Quota(w, payer))
        && (outcome == Accepted ==> |Pool(View(), payer)| <= Quota(View(), payer))
      ensures Compliant(old(View())) ==> Compliant(View())
    {
      ghost var w := View();
      if Compliant(w) { StepKeepsCompliance(w, Create(id, user, org, r, now), deployment); }
      var payer := BillingSubject(user, org);
      var plan := PlanForUser(payer);
      var limits := LimitsForPlan(plan);
      var m;
      outcome, m := GateCreate(r, limits, deployment, user, org, now);
      if outcome != Accepted { return; }
      var pool := set k | k in monitors && InScopeNow(monitors[k], payer);
      assert pool == Pool(w, payer);
      if |pool| >= limits.maxMonitors { return PaymentRequired; }
      CreateWithinQuota(w, id, user, org, r, now, deployment, payer);
      monitors := monitors[id := m.value];
    }

    /** The update handler. */
    method UpdateMonitor(id: MonitorId, r: UpdateRequest, now: int) returns (outcome: Outcome)
      modifies this`monitors
      ensures View() == Step(old(View()), Update(id, r, now), deployment)
      ensures outcome == NotFound <==> id !in old(monitors)
      ensures outcome != Accepted ==> monitors == old(monitors)
      ensures Compliant(old(View())) ==> Compliant(View())
      ensures Compliant(old(View())) && id in old(monitors) ==>
        var m := old(monitors)[id];
        var limits := LimitsForPlan(PlanOf(subscriptions, BillingOwner(old(View()), m)));
        outcome == Accepted <==> AdmissibleUpdate(m, r, limits, deployment)
    {
      ghost var w := View();
      if Compliant(w) { StepKeepsCompliance(w, Update(id, r, now), deployment); }
      if id !in monitors { return NotFound; }
      var m := monitors[id];
      var payer := BillingSubject(m.user, m.org);
      var plan := PlanForUser(payer);
      outcome := GateUpdate(m, r, LimitsForPlan(plan), deployment);
      if outcome != Accepted { return; }
      var u := ApplyUpdate(m, r, now);
      monitors := monitors[id := u];
    }
  }
}
