/** Plan limits and check intervals (internal/models/plan.go and its SQL mirror). */
module Plans {
  import opened Types

  /** Subscription plans; `UNRECOGNISED` is any other plan name. */
  datatype Plan = FREE | PRO | ENTERPRISE | UNRECOGNISED

  datatype PlanLimits = PlanLimits(
    maxMonitors: nat,
    minInterval: nat,
    maxRegions: Option<nat>,          // None = unlimited
    maxLoginSeats: nat,
    customDegradedThreshold: bool,
    maxAlertRepeats: nat,
    sslMonitoring: bool,
    domainMonitoring: bool)

  function LimitsForPlan(plan: Plan): PlanLimits {
    match plan
    case PRO => PlanLimits(20, 60, Some(3), 0, true, 0, false, false)
    case ENTERPRISE => PlanLimits(200, 60, None, 3, true, 10, true, true)
    case _ => PlanLimits(5, 300, Some(1), 0, false, 0, false, false)
  }

  datatype SubscriptionStatus = ACTIVE | PAST_DUE | TRIALING | CANCELED

  datatype Subscription = Subscription(plan: Plan, status: SubscriptionStatus)

  /** CANCELED carries no entitlement and a missing record is FREE. */
  function EffectivePlan(sub: Option<Subscription>): Plan {
    if sub.None? || sub.value.status == CANCELED then FREE else sub.value.plan
  }

  function PlanOf(subscriptions: map<UserId, Subscription>, user: UserId): Plan {
    EffectivePlan(if user in subscriptions then Some(subscriptions[user]) else None)
  }

  /** Billing subject and alert-channel owner: the organization's owner for its monitors, else the user. */
  function PayerOf(owners: map<OrgId, UserId>, user: UserId, org: Option<OrgId>): UserId {
    if org.Some? && org.value in owners then owners[org.value] else user
  }

  /** The interval the scheduler uses, in seconds. */
  function EffectiveInterval(raw: Option<nat>, plan: Plan, timeout: nat): nat {
    match raw
    case Some(v) => v
    case None =>
      var floor := LimitsForPlan(plan).minInterval;
      if timeout >= floor then timeout + 1 else floor
  }

  /** The SQL mirror, maintenance.effective_interval, used only for the quorum freshness window. */
  function SqlEffectiveInterval(raw: Option<nat>, plan: Plan): nat {
    match raw
    case Some(v) => v
    case None => if plan == FREE then 300 else 60
  }

  /** ACTIVE, TRIALING and PAST_DUE are entitled to the stored plan; CANCELED and no record are FREE. */
  lemma EntitlementExact(plan: Plan)
    ensures EffectivePlan(Some(Subscription(plan, ACTIVE))) == plan
    ensures EffectivePlan(Some(Subscription(plan, TRIALING))) == plan
    ensures EffectivePlan(Some(Subscription(plan, PAST_DUE))) == plan
    ensures EffectivePlan(Some(Subscription(plan, CANCELED))) == FREE && EffectivePlan(None) == FREE
  {
  }

  /** An override stands; otherwise the plan's minimum, or one second more than a timeout that reaches it. */
  lemma EffectiveIntervalExact(raw: Option<nat>, plan: Plan, timeout: nat)
    ensures raw.Some? ==> EffectiveInterval(raw, plan, timeout) == raw.value
    ensures raw.None? ==> EffectiveInterval(raw, plan, timeout) > timeout
    ensures raw.None? ==> EffectiveInterval(raw, plan, timeout) >= LimitsForPlan(plan).minInterval
    ensures raw.None? ==> EffectiveInterval(raw, plan, timeout) == LimitsForPlan(plan).minInterval ||
                          EffectiveInterval(raw, plan, timeout) == timeout + 1
  {
  }

  /** The figures of the three plans; any other name is FREE. */
  lemma PlanFigures()
    ensures LimitsForPlan(FREE) == LimitsForPlan(UNRECOGNISED) == PlanLimits(5, 300, Some(1), 0, false, 0, false, false)
    ensures LimitsForPlan(PRO) == PlanLimits(20, 60, Some(3), 0, true, 0, false, false)
    ensures LimitsForPlan(ENTERPRISE) == PlanLimits(200, 60, None, 3, true, 10, true, true)
  {
  }
}
