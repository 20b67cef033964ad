/**
 * The plan gates on creating and updating monitors (internal/api/handlers/monitors.go, regions.go
 * and the request validation in internal/models/monitor.go).
 */
module PlanGates {
  import opened Types
  import opened Plans

  datatype MonitorType = HTTP | PORT | PING

  datatype Monitor = Monitor(
    user: UserId,
    org: Option<OrgId>,
    kind: MonitorType,
    interval: Option<int>,               // None = follow the plan
    timeout: int,
    regions: seq<Region>,
    degradedThreshold: Option<int>,
    repeatInterval: Option<int>,
    repeatCount: Option<int>,
    certCheck: bool,
    domainCheck: bool,
    updatedAt: int)

  /** What a plan allows of one monitor. */
  predicate MeetsPlan(m: Monitor, limits: PlanLimits) {
    WithinCaps(m, limits) && FeaturesOffered(m, limits)
  }

  predicate WithinCaps(m: Monitor, limits: PlanLimits) {
    && (m.interval.Some? ==> m.interval.value >= limits.minInterval)
    && (limits.maxRegions.Some? ==> |m.regions| <= limits.maxRegions.value)
    && TimeoutInBounds(m.timeout)
  }

  predicate FeaturesOffered(m: Monitor, limits: PlanLimits) {
    && (m.degradedThreshold.Some? ==> limits.customDegradedThreshold)
    && (m.repeatInterval.Some? <==> m.repeatCount.Some?)
    && (m.repeatCount.Some? ==> 0 < m.repeatCount.value <= limits.maxAlertRepeats)
    && (m.certCheck ==> limits.sslMonitoring)
    && (m.domainCheck ==> limits.domainMonitoring)
  }

  // ---------- Regions ----------

  datatype Outcome = Accepted | BadRequest | PaymentRequired | NotFound

  datatype Deployment = Deployment(known: set<Region>, available: set<Region>)

  const DEFAULT_REGION: Region := "ca-east"

  /** Region lists without repeats, in first-come order. */
  function Deduped(regions: seq<Region>): (out: seq<Region>)
    ensures forall r :: r in out <==> r in regions
    ensures forall i, j :: 0 <= i < j < |out| ==> out[i] != out[j]
  {
    if regions == [] then [] else
    var init, last := regions[..|regions| - 1], regions[|regions| - 1];
    assert regions == init + [last];
    var out := Deduped(init);
    if last in out then out else out + [last]
  }

  /** Position of the first occurrence. */
  function FirstAt(regions: seq<Region>, r: Region): nat
    requires r in regions
  {
    if regions[0] == r then 0 else 1 + FirstAt(regions[1..], r)
  }

  lemma {:induction false} FirstAtMeans(regions: seq<Region>, r: Region)
    requires r in regions
    ensures var k := FirstAt(regions, r); k < |regions| && regions[k] == r && forall j :: 0 <= j < k ==> regions[j] != r
  {
    if regions[0] != r {
      FirstAtMeans(regions[1..], r);
      var k := FirstAt(regions[1..], r);
      forall j | 0 <= j < k + 1 ensures regions[j] != r {
        if j > 0 { assert regions[j] == regions[1..][j - 1]; }
      }
    }
  }

  lemma FirstAtPrefix(init: seq<Region>, last: Region, r: Region)
    requires r in init
    ensures FirstAt(init + [last], r) == FirstAt(init, r) < |init|
  {
    FirstAtMeans(init, r);
    FirstAtMeans(init + [last], r);
    var a, b := FirstAt(init, r), FirstAt(init + [last], r);
    assert (init + [last])[a] == r;
    assert b < |init| ==> (init + [last])[b] == init[b];
  }

  lemma {:induction false} NewLastAt(init: seq<Region>, last: Region)
    requires last !in init
    ensures FirstAt(init + [last], last) == |init|
  {
    if init != [] {
      assert (init + [last])[1..] == init[1..] + [last];
      NewLastAt(init[1..], last);
    }
  }

  /** Regions keep the order in which they were first asked for. */
  lemma {:induction false} DedupedKeepsOrder(regions: seq<Region>, i: nat, j: nat)
    requires i < j < |Deduped(regions)|
    ensures FirstAt(regions, Deduped(regions)[i]) < FirstAt(regions, Deduped(regions)[j])
  {
    var init, last := regions[..|regions| - 1], regions[|regions| - 1];
    var out := Deduped(init);
    assert regions == init + [last];
    assert i < |out| && out[i] in init;
    FirstAtPrefix(init, last, out[i]);
    if j < |out| {
      assert out[j] in init;
      FirstAtPrefix(init, last, out[j]);
      DedupedKeepsOrder(init, i, j);
    } else {
      NewLastAt(init, last);
    }
  }

  /** validateRegions, after NormalizeRegions: unknown, none, not deployed, or more than the plan allows. */
  function RegionsVerdict(regions: seq<Region>, limits: PlanLimits, d: Deployment): Outcome {
    var out := Deduped(regions);
    if exists r :: r in out && r !in d.known then BadRequest
    else if out == [] then BadRequest
    else if exists r :: r in out && r !in d.available then BadRequest
    else if limits.maxRegions.Some? && |out| > limits.maxRegions.value then PaymentRequired
    else Accepted
  }

  /** NormalizeRegions as the loop it is. */
  method NormalizeRegions(regions: seq<Region>, known: set<Region>) returns (out: Option<seq<Region>>)
    ensures out.None? <==> regions == [] || exists r :: r in regions && r !in known
    ensures out.Some? ==> out.value == Deduped(regions)
  {
    var acc: seq<Region> := [];
    for i := 0 to |regions|
      invariant acc == Deduped(regions[..i])
      invariant forall r :: r in regions[..i] ==> r in known
    {
      assert regions[..i + 1][..i] == regions[..i];
      assert regions[..i + 1] == regions[..i] + [regions[i]];
      if regions[i] in acc { continue; }
      if regions[i] !in known {
        assert regions[i] in regions;
        return None;
      }
      acc := acc + [regions[i]];
    }
    assert regions[..|regions|] == regions;
    assert regions != [] ==> regions[0] in acc;
    if |acc| == 0 { return None; }
    return Some(acc);
  }

  // ---------- Create ----------

  /** An omitted interval is 0; an omitted timeout has already been defaulted to 30. */
  datatype CreateRequest = CreateRequest(
    kind: MonitorType,
    interval: int,
    timeout: int,
    regions: seq<Region>,
    degradedThreshold: Option<int>,
    repeatInterval: Option<int>,
    repeatCount: Option<int>,
    certCheck: Option<bool>,
    domainCheck: Option<bool>)

  predicate IntervalInBounds(v: int) { 60 <= v <= 86400 }
  predicate TimeoutInBounds(v: int) { 5 <= v <= 300 }
  predicate ThresholdInBounds(v: Option<int>) { OrElse(v, 0) == 0 || 100 <= v.value <= 60000 }

  /** Both absent or zero, or both set and in bounds. */
  predicate RepeatsInBounds(interval: Option<int>, count: Option<int>) {
    var iv, cv := OrElse(interval, 0), OrElse(count, 0);
    (iv == 0 && cv == 0) || (iv != 0 && cv != 0 && 300 <= iv <= 86400 && cv >= 1)
  }

  predicate ValidCreate(r: CreateRequest) {
    && (r.interval != 0 ==> IntervalInBounds(r.interval))
    && TimeoutInBounds(r.timeout)
    && (r.interval != 0 ==> r.timeout < r.interval)
    && ThresholdInBounds(r.degradedThreshold)
    && RepeatsInBounds(r.repeatInterval, r.repeatCount)
  }

  function RequestedRegions(r: CreateRequest): seq<Region> {
    if r.regions == [] then [DEFAULT_REGION] else r.regions
  }

  /** The guards of the create handler, in order. */
  function CreateVerdict(r: CreateRequest, limits: PlanLimits, d: Deployment): Outcome {
    var regions := RegionsVerdict(RequestedRegions(r), limits, d);
    if !ValidCreate(r) then BadRequest
    else if regions != Accepted then regions
    else if OrElse(r.degradedThreshold, 0) != 0 && !limits.customDegradedThreshold then PaymentRequired
    else if OrElse(r.repeatInterval, 0) != 0 && limits.maxAlertRepeats == 0 then PaymentRequired
    else if OrElse(r.repeatInterval, 0) != 0 && OrElse(r.repeatCount, 0) > limits.maxAlertRepeats then BadRequest
    else if r.interval == 0 && r.timeout >= limits.minInterval then BadRequest
    else if r.interval != 0 && r.interval < limits.minInterval then PaymentRequired
    else if (r.certCheck.Some? || r.domainCheck.Some?) && r.kind != HTTP then BadRequest
    else if OrElse(r.certCheck, false) && !limits.sslMonitoring then PaymentRequired
    else if OrElse(r.domainCheck, false) && !limits.domainMonitoring then PaymentRequired
    else Accepted
  }

  function NonZero(v: Option<int>): Option<int> { if OrElse(v, 0) == 0 then None else v }

  function Created(r: CreateRequest, user: UserId, org: Option<OrgId>, now: int): Monitor {
    var repeats := OrElse(r.repeatInterval, 0) != 0;
    Monitor(user, org, r.kind, if r.interval == 0 then None else Some(r.interval), r.timeout,
            Deduped(RequestedRegions(r)), NonZero(r.degradedThreshold),
            if repeats then r.repeatInterval else None, if repeats then r.repeatCount else None,
            OrElse(r.certCheck, false), OrElse(r.domainCheck, false), now)
  }

  /** The regions are known, deployed and at least one. */
  predicate RegionsOffered(regions: seq<Region>, d: Deployment) {
    regions != [] && forall r :: r in regions ==> r in d.known && r in d.available
  }

  lemma RegionsVerdictExact(regions: seq<Region>, limits: PlanLimits, d: Deployment)
    ensures RegionsVerdict(regions, limits, d) == Accepted <==>
            RegionsOffered(regions, d) && (limits.maxRegions.Some? ==> |Deduped(regions)| <= limits.maxRegions.value)
    ensures RegionsVerdict(regions, limits, d) == PaymentRequired <==>
            RegionsOffered(regions, d) && limits.maxRegions.Some? && |Deduped(regions)| > limits.maxRegions.value
  {
    assert regions != [] ==> regions[0] in Deduped(regions);
    assert Deduped(regions) != [] ==> Deduped(regions)[0] in regions;
  }

  /** Repeat alerts are off, or come with an interval of five minutes to a day and a positive count. */
  predicate WholePair(iv: int, cv: int) { (iv == 0 && cv == 0) || (300 <= iv <= 86400 && cv >= 1) }

  /** A request within bounds for offered regions whose monitor would meet the plan. */
  predicate AdmissibleCreate(r: CreateRequest, limits: PlanLimits, d: Deployment) {
    var m := Created(r, "", None, 0);
    && (r.interval == 0 || 60 <= r.interval <= 86400) && 5 <= r.timeout <= 300
    && (OrElse(r.degradedThreshold, 0) == 0 || 100 <= r.degradedThreshold.value <= 60000)
    && WholePair(OrElse(r.repeatInterval, 0), OrElse(r.repeatCount, 0))
    && RegionsOffered(if r.regions == [] then ["ca-east"] else r.regions, d)
    && (r.certCheck.Some? || r.domainCheck.Some? ==> r.kind == HTTP)
    && MeetsPlan(m, limits) && TimeoutFits(m, limits)
  }

  /** The gates let through exactly what would meet the plan: they refuse nothing else and admit nothing else. */
  lemma CreateGateExact(r: CreateRequest, limits: PlanLimits, d: Deployment)
    ensures CreateVerdict(r, limits, d) == Accepted <==> AdmissibleCreate(r, limits, d)
  {
    RegionsVerdictExact(RequestedRegions(r), limits, d);
  }

  /** Something that a higher plan would allow. */
  predicate CreateNeedsUpgrade(r: CreateRequest, limits: PlanLimits) {
    || (limits.maxRegions.Some? && |Deduped(RequestedRegions(r))| > limits.maxRegions.value)
    || (OrElse(r.degradedThreshold, 0) != 0 && !limits.customDegradedThreshold)
    || (OrElse(r.repeatInterval, 0) != 0 && limits.maxAlertRepeats == 0)
    || (r.interval != 0 && r.interval < limits.minInterval)
    || (r.certCheck == Some(true) && !limits.sslMonitoring) || (r.domainCheck == Some(true) && !limits.domainMonitoring)
  }

  /** Something that is wrong on this plan as such. */
  predicate CreateIsWrong(r: CreateRequest, limits: PlanLimits) {
    || (OrElse(r.repeatInterval, 0) != 0 && 0 < limits.maxAlertRepeats < OrElse(r.repeatCount, 0))
    || (r.interval == 0 && r.timeout >= limits.minInterval)
    || ((r.certCheck.Some? || r.domainCheck.Some?) && r.kind != HTTP)
  }

  /** What a request within bounds is told: an upgrade prompt, a bad request, or that it was accepted. */
  lemma CreateRefusalExact(r: CreateRequest, limits: PlanLimits, d: Deployment)
    requires ValidCreate(r) && RegionsOffered(RequestedRegions(r), d)
    ensures var pay, bad, told := CreateNeedsUpgrade(r, limits), CreateIsWrong(r, limits), CreateVerdict(r, limits, d);
      && (told == Accepted <==> !pay && !bad)
      && (pay && !bad ==> told == PaymentRequired) && (bad && !pay ==> told == BadRequest)
      && (told == PaymentRequired ==> pay) && (told == BadRequest ==> bad)
  {
    RegionsVerdictExact(RequestedRegions(r), limits, d);
  }

  /** A value of zero stands for the default. */
  predicate Stored(column: Option<int>, request: Option<int>) {
    column == if request.Some? && request.value != 0 then request else None
  }

  /** The row of an accepted create holds what was asked for. */
  lemma CreatedExact(r: CreateRequest, limits: PlanLimits, d: Deployment, user: UserId, org: Option<OrgId>, now: int)
    requires CreateVerdict(r, limits, d) == Accepted
    ensures var m := Created(r, user, org, now);
      && m.user == user && m.org == org && m.kind == r.kind && m.timeout == r.timeout && m.updatedAt == now
      && Stored(m.interval, Some(r.interval)) && Stored(m.degradedThreshold, r.degradedThreshold)
      && Stored(m.repeatInterval, r.repeatInterval) && Stored(m.repeatCount, r.repeatCount)
      && (m.certCheck <==> r.certCheck == Some(true)) && (m.domainCheck <==> r.domainCheck == Some(true))
      && (forall x :: x in m.regions <==> x in if r.regions == [] then ["ca-east"] else r.regions)
      && (forall i, j :: 0 <= i < j < |m.regions| ==> m.regions[i] != m.regions[j])
  {
  }

  /** A monitor the handler accepts meets the plan, and its timeout is below its interval. */
  lemma CreatedMeetsPlan(r: CreateRequest, limits: PlanLimits, d: Deployment, user: UserId, org: Option<OrgId>,
                         now: int)
    requires CreateVerdict(r, limits, d) == Accepted
    ensures var m := Created(r, user, org, now);
      MeetsPlan(m, limits) && m.regions != [] && TimeoutFits(m, limits)
  {
  }

  // ---------- Update ----------

  /** `other` says whether a field without a plan gate is present (name, target, enabled, alert days). */
  datatype UpdateRequest = UpdateRequest(
    kind: Option<MonitorType>,
    interval: Option<int>,
    timeout: Option<int>,
    regions: Option<seq<Region>>,
    degradedThreshold: Option<int>,
    repeatInterval: Option<int>,
    repeatCount: Option<int>,
    certCheck: Option<bool>,
    domainCheck: Option<bool>,
    other: bool)

  predicate NoFields(r: UpdateRequest) {
    && r.kind.None? && r.interval.None? && r.timeout.None? && r.regions.None? && r.degradedThreshold.None?
    && r.repeatInterval.None? && r.repeatCount.None? && r.certCheck.None? && r.domainCheck.None? && !r.other
  }

  predicate ValidUpdate(r: UpdateRequest) {
    && (OrElse(r.interval, 0) != 0 ==> IntervalInBounds(r.interval.value))
    && (r.timeout.Some? ==> TimeoutInBounds(r.timeout.value))
    && ThresholdInBounds(r.degradedThreshold)
    && (OrElse(r.repeatInterval, 0) != 0 && OrElse(r.repeatCount, 0) != 0 ==>
          RepeatsInBounds(r.repeatInterval, r.repeatCount))
  }

  function IntervalVerdict(m: Monitor, r: UpdateRequest, limits: PlanLimits): Outcome {
    if r.interval.None? then Accepted else
    var timeout := OrElse(r.timeout, m.timeout);
    if r.interval.value == 0 then (if timeout >= limits.minInterval then BadRequest else Accepted)
    else if r.interval.value < limits.minInterval then PaymentRequired
    else if timeout >= r.interval.value then BadRequest
    else Accepted
  }

  function RepeatsVerdict(r: UpdateRequest, limits: PlanLimits): Outcome {
    var iv, cv := OrElse(r.repeatInterval, 0), OrElse(r.repeatCount, 0);
    if iv != 0 && cv != 0 then
      if limits.maxAlertRepeats == 0 then PaymentRequired
      else if cv > limits.maxAlertRepeats then BadRequest
      else Accepted
    else if iv != 0 || cv != 0 then BadRequest
    else Accepted
  }

  function ExpiryVerdict(m: Monitor, r: UpdateRequest, limits: PlanLimits): Outcome {
    var wantsCert, wantsDomain := OrElse(r.certCheck, false), OrElse(r.domainCheck, false);
    if (wantsCert || wantsDomain) && OrElse(r.kind, m.kind) != HTTP then BadRequest
    else if (wantsCert && !limits.sslMonitoring) || (wantsDomain && !limits.domainMonitoring) then PaymentRequired
    else Accepted
  }

  /** The guards of the update handler, in order. */
  function UpdateVerdict(m: Monitor, r: UpdateRequest, limits: PlanLimits, d: Deployment): Outcome {
    if NoFields(r) || !ValidUpdate(r) then BadRequest
    else if IntervalVerdict(m, r, limits) != Accepted then IntervalVerdict(m, r, limits)
    else if r.regions.Some? && RegionsVerdict(r.regions.value, limits, d) != Accepted then
      RegionsVerdict(r.regions.value, limits, d)
    else if OrElse(r.degradedThreshold, 0) != 0 && !limits.customDegradedThreshold then PaymentRequired
    else if RepeatsVerdict(r, limits) != Accepted then RepeatsVerdict(r, limits)
    else ExpiryVerdict(m, r, limits)
  }

  /** The columns the store writes: 0 stands for NULL, an absent field keeps its value. */
  function Updated(m: Monitor, r: UpdateRequest, now: int): Monitor {
    var touched := r.repeatInterval.Some? || r.repeatCount.Some?;
    var enables := OrElse(r.repeatInterval, 0) != 0 && OrElse(r.repeatCount, 0) != 0;
    m.(kind := OrElse(r.kind, m.kind),
       interval := if r.interval.None? then m.interval else NonZero(r.interval),
       timeout := OrElse(r.timeout, m.timeout),
       regions := if r.regions.None? then m.regions else Deduped(r.regions.value),
       degradedThreshold := if r.degradedThreshold.None? then m.degradedThreshold else NonZero(r.degradedThreshold),
       repeatInterval := if !touched then m.repeatInterval else if enables then r.repeatInterval else None,
       repeatCount := if !touched then m.repeatCount else if enables then r.repeatCount else None,
       certCheck := OrElse(r.certCheck, m.certCheck),
       domainCheck := OrElse(r.domainCheck, m.domainCheck),
       updatedAt := now)
  }

  predicate UpdateWithinBounds(r: UpdateRequest) {
    && (OrElse(r.interval, 0) == 0 || 60 <= r.interval.value <= 86400)
    && (r.timeout.Some? ==> 5 <= r.timeout.value <= 300)
    && (OrElse(r.degradedThreshold, 0) == 0 || 100 <= r.degradedThreshold.value <= 60000)
    && WholePair(OrElse(r.repeatInterval, 0), OrElse(r.repeatCount, 0))
  }

  lemma UpdateBoundsExact(r: UpdateRequest)
    ensures UpdateWithinBounds(r) <==>
            ValidUpdate(r) && (OrElse(r.repeatInterval, 0) == 0 <==> OrElse(r.repeatCount, 0) == 0)
  {
  }

  /** A valid update for offered regions after which the monitor meets the plan. */
  predicate AdmissibleUpdate(m: Monitor, r: UpdateRequest, limits: PlanLimits, d: Deployment) {
    var m' := Updated(m, r, 0);
    && !NoFields(r) && UpdateWithinBounds(r)
    && (r.regions.Some? ==> RegionsOffered(r.regions.value, d))
    && (OrElse(r.certCheck, false) || OrElse(r.domainCheck, false) ==> m'.kind == HTTP)
    && MeetsPlan(m', limits) && (r.interval.Some? ==> TimeoutFits(m', limits))
  }

  /** For a monitor that meets its plan the gates let through exactly the updates after which it still does. */
  lemma UpdateGateExact(m: Monitor, r: UpdateRequest, limits: PlanLimits, d: Deployment)
    requires MeetsPlan(m, limits)
    ensures UpdateVerdict(m, r, limits, d) == Accepted <==> AdmissibleUpdate(m, r, limits, d)
  {
    UpdateBoundsExact(r);
    if r.regions.Some? { RegionsVerdictExact(r.regions.value, limits, d); }
  }

  predicate UpdateNeedsUpgrade(r: UpdateRequest, limits: PlanLimits) {
    || (r.regions.Some? && limits.maxRegions.Some? && |Deduped(r.regions.value)| > limits.maxRegions.value)
    || (OrElse(r.degradedThreshold, 0) != 0 && !limits.customDegradedThreshold)
    || (OrElse(r.repeatInterval, 0) != 0 && OrElse(r.repeatCount, 0) != 0 && limits.maxAlertRepeats == 0)
    || (OrElse(r.interval, 0) != 0 && r.interval.value < limits.minInterval)
    || (r.certCheck == Some(true) && !limits.sslMonitoring) || (r.domainCheck == Some(true) && !limits.domainMonitoring)
  }

  predicate UpdateIsWrong(m: Monitor, r: UpdateRequest, limits: PlanLimits) {
    var timeout, iv, cv := OrElse(r.timeout, m.timeout), OrElse(r.repeatInterval, 0), OrElse(r.repeatCount, 0);
    || (r.interval == Some(0) && timeout >= limits.minInterval)
    || (OrElse(r.interval, 0) != 0 && timeout >= r.interval.value)
    || (iv == 0 && cv != 0) || (iv != 0 && cv == 0) || (iv != 0 && 0 < limits.maxAlertRepeats < cv)
    || ((r.certCheck == Some(true) || r.domainCheck == Some(true)) && OrElse(r.kind, m.kind) != HTTP)
  }

  /** The same for an update within bounds. */
  lemma UpdateRefusalExact(m: Monitor, r: UpdateRequest, limits: PlanLimits, d: Deployment)
    requires !NoFields(r) && ValidUpdate(r) && (r.regions.Some? ==> RegionsOffered(r.regions.value, d))
    ensures var pay, bad := UpdateNeedsUpgrade(r, limits), UpdateIsWrong(m, r, limits);
      var told := UpdateVerdict(m, r, limits, d);
      && (told == Accepted <==> !pay && !bad)
      && (pay && !bad ==> told == PaymentRequired) && (bad && !pay ==> told == BadRequest)
      && (told == PaymentRequired ==> pay) && (told == BadRequest ==> bad)
  {
    if r.regions.Some? { RegionsVerdictExact(r.regions.value, limits, d); }
  }

  /** An absent field keeps its column; zero clears it. */
  predicate Written(after: Option<int>, before: Option<int>, request: Option<int>) {
    if request.None? then after == before else Stored(after, request)
  }

  /** The row of an accepted update: what was asked for, and everything else as it was. */
  lemma UpdatedExact(m: Monitor, r: UpdateRequest, limits: PlanLimits, d: Deployment, now: int)
    requires UpdateVerdict(m, r, limits, d) == Accepted
    ensures var u := Updated(m, r, now);
      && u.user == m.user && u.org == m.org && u.updatedAt == now
      && u.kind == (if r.kind.Some? then r.kind.value else m.kind)
      && u.timeout == (if r.timeout.Some? then r.timeout.value else m.timeout)
      && u.certCheck == (if r.certCheck.Some? then r.certCheck.value else m.certCheck)
      && u.domainCheck == (if r.domainCheck.Some? then r.domainCheck.value else m.domainCheck)
      && Written(u.interval, m.interval, r.interval)
      && Written(u.degradedThreshold, m.degradedThreshold, r.degradedThreshold)
    ensures var u := Updated(m, r, now);
      if r.repeatInterval.None? && r.repeatCount.None?
      then u.repeatInterval == m.repeatInterval && u.repeatCount == m.repeatCount
      else Stored(u.repeatInterval, r.repeatInterval) && Stored(u.repeatCount, r.repeatCount)
    ensures var u := Updated(m, r, now);
      if r.regions.None? then u.regions == m.regions
      else (forall x :: x in u.regions <==> x in r.regions.value)
           && forall i, j :: 0 <= i < j < |u.regions| ==> u.regions[i] != u.regions[j]
  {
  }

  /** An accepted update of a monitor that meets its plan still meets it. */
  lemma UpdatedMeetsPlan(m: Monitor, r: UpdateRequest, limits: PlanLimits, d: Deployment, now: int)
    requires MeetsPlan(m, limits) && UpdateVerdict(m, r, limits, d) == Accepted
    ensures MeetsPlan(Updated(m, r, now), limits)
  {
  }

  // ---------- Timeout and interval ----------

  /** The timeout is below the interval the monitor runs at, without the clamp. */
  predicate TimeoutFits(m: Monitor, limits: PlanLimits) {
    m.timeout < OrElse(m.interval, limits.minInterval)
  }

  /**
   * An accepted update can break the rule that a timeout is below its interval: exactly when it sets
   * a timeout, leaves the interval alone, and that timeout reaches the interval in force.
   */
  lemma TimeoutRecheckExact(m: Monitor, r: UpdateRequest, limits: PlanLimits, d: Deployment, now: int)
    requires TimeoutFits(m, limits) && UpdateVerdict(m, r, limits, d) == Accepted
    ensures TimeoutFits(Updated(m, r, now), limits) <==>
            r.interval.Some? || r.timeout.None? || r.timeout.value < OrElse(m.interval, limits.minInterval)
  {
  }

  /** Expiry checks run on HTTP monitors only. */
  predicate ChecksOnHttp(m: Monitor) { m.certCheck || m.domainCheck ==> m.kind == HTTP }

  /**
   * An accepted update breaks that exactly when it changes the type away from HTTP and leaves on a
   * check that is on: only requests that turn a check on are held against the type.
   */
  lemma HttpRecheckExact(m: Monitor, r: UpdateRequest, limits: PlanLimits, d: Deployment, now: int)
    requires ChecksOnHttp(m) && UpdateVerdict(m, r, limits, d) == Accepted
    ensures ChecksOnHttp(Updated(m, r, now)) <==>
            r.kind.None? || r.kind.value == HTTP ||
            !((m.certCheck && r.certCheck.None?) || (m.domainCheck && r.domainCheck.None?))
  {
  }

  /** A monitor for which an update of the type alone does so. */
  lemma TypeOnlyUpdateBreaks(d: Deployment)
    ensures exists m, r ::
      && MeetsPlan(m, LimitsForPlan(ENTERPRISE)) && ChecksOnHttp(m)
      && UpdateVerdict(m, r, LimitsForPlan(ENTERPRISE), d) == Accepted && !ChecksOnHttp(Updated(m, r, 1))
  {
    var m := Monitor("u", None, HTTP, None, 30, ["ca-east"], None, None, None, true, false, 0);
    var r := UpdateRequest(Some(PING), None, None, None, None, None, None, None, None, false);
    assert MeetsPlan(m, LimitsForPlan(ENTERPRISE)) && ChecksOnHttp(m);
    assert UpdateVerdict(m, r, LimitsForPlan(ENTERPRISE), d) == Accepted;
  }

  /** A monitor of a paying user for which a timeout-only update does so. */
  lemma TimeoutOnlyUpdateBreaks(d: Deployment)
    ensures exists m, r ::
      && MeetsPlan(m, LimitsForPlan(PRO)) && TimeoutFits(m, LimitsForPlan(PRO))
      && UpdateVerdict(m, r, LimitsForPlan(PRO), d) == Accepted && !TimeoutFits(Updated(m, r, 1), LimitsForPlan(PRO))
  {
    var m := Monitor("u", None, HTTP, Some(60), 30, ["ca-east"], None, None, None, false, false, 0);
    var r := UpdateRequest(None, None, Some(90), None, None, None, None, None, None, false);
    assert MeetsPlan(m, LimitsForPlan(PRO)) && TimeoutFits(m, LimitsForPlan(PRO));
    assert UpdateVerdict(m, r, LimitsForPlan(PRO), d) == Accepted;
  }

  // ---------- The handlers' guards, one after another ----------

  /** validateRegions. */
  method ValidateRegions(regions: seq<Region>, limits: PlanLimits, d: Deployment)
    returns (outcome: Outcome, normalized: seq<Region>)
    ensures outcome == RegionsVerdict(regions, limits, d)
    ensures outcome == Accepted ==> normalized == Deduped(regions)
  {
    normalized := [];
    RegionsVerdictExact(regions, limits, d);
    var known := NormalizeRegions(regions, d.known);
    if known.None? {
      RegionsUnknown(regions, limits, d);
      return BadRequest, [];
    }
    for i := 0 to |known.value|
      invariant forall k :: 0 <= k < i ==> known.value[k] in d.available
    {
      if known.value[i] !in d.available {
        assert known.value[i] in Deduped(regions);
        return BadRequest, [];
      }
    }
    if limits.maxRegions.Some? && |known.value| > limits.maxRegions.value { return PaymentRequired, []; }
    return Accepted, known.value;
  }

  lemma RegionsUnknown(regions: seq<Region>, limits: PlanLimits, d: Deployment)
    requires regions == [] || exists r :: r in regions && r !in d.known
    ensures RegionsVerdict(regions, limits, d) == BadRequest
  {
    if r :| r in regions && r !in d.known { assert r in Deduped(regions); }
  }

  /** CreateMonitorRequest.Validate. */
  method ValidateCreate(r: CreateRequest) returns (ok: bool)
    ensures ok <==> ValidCreate(r)
  {
    if r.interval != 0 && (r.interval < 60 || r.interval > 86400) { return false; }
    if r.timeout < 5 || r.timeout > 300 { return false; }
    if r.interval != 0 && r.timeout >= r.interval { return false; }
    var ms := OrElse(r.degradedThreshold, 0);
    if ms != 0 && (ms < 100 || ms > 60000) { return false; }
    ok := ValidateRepeatAlerts(OrElse(r.repeatInterval, 0), OrElse(r.repeatCount, 0));
  }

  method ValidateRepeatAlerts(iv: int, cv: int) returns (ok: bool)
    ensures ok <==> RepeatsInBounds(Some(iv), Some(cv))
  {
    if iv == 0 && cv == 0 { return true; }
    if iv == 0 || cv == 0 { return false; }
    if iv < 300 || iv > 86400 { return false; }
    return cv >= 1;
  }

  /** The plan gates of the create handler up to the store call, and the row it would insert. */
  method GateCreate(r: CreateRequest, limits: PlanLimits, d: Deployment, user: UserId, org: Option<OrgId>, now: int)
    returns (outcome: Outcome, m: Option<Monitor>)
    ensures outcome == CreateVerdict(r, limits, d)
    ensures m == if outcome == Accepted then Some(Created(r, user, org, now)) else None
    ensures outcome == Accepted <==> AdmissibleCreate(r, limits, d)
  {
    CreateGateExact(r, limits, d);
    m := None;
    var ok := ValidateCreate(r);
    if !ok { return BadRequest, None; }
    var regions := r.regions;
    if |regions| == 0 { regions := [DEFAULT_REGION]; }
    outcome, regions := ValidateRegions(regions, limits, d);
    if outcome != Accepted { return outcome, None; }

    var threshold, repeatInterval, repeatCount, interval := None, None, None, None;
    if r.degradedThreshold.Some? && r.degradedThreshold.value != 0 {
      if !limits.customDegradedThreshold { return PaymentRequired, None; }
      threshold := Some(r.degradedThreshold.value);
    }
    if r.repeatInterval.Some? && r.repeatInterval.value != 0 {
      if limits.maxAlertRepeats == 0 { return PaymentRequired, None; }
      if r.repeatCount.value > limits.maxAlertRepeats { return BadRequest, None; }
      repeatInterval, repeatCount := Some(r.repeatInterval.value), Some(r.repeatCount.value);
    }
    if r.interval == 0 {
      if r.timeout >= limits.minInterval { return BadRequest, None; }
    } else if r.interval < limits.minInterval {
      return PaymentRequired, None;
    } else {
      interval := Some(r.interval);
    }
    var wantsCert, wantsDomain;
    outcome, wantsCert, wantsDomain := GateExpiryChecks(r, limits);
    if outcome != Accepted { return outcome, None; }
    m := Some(Monitor(user, org, r.kind, interval, r.timeout, regions, threshold, repeatInterval, repeatCount,
                      wantsCert, wantsDomain, now));
  }

  method GateExpiryChecks(r: CreateRequest, limits: PlanLimits) returns (outcome: Outcome, cert: bool, domain: bool)
    ensures outcome == if (r.certCheck.Some? || r.domainCheck.Some?) && r.kind != HTTP then BadRequest
                       else if r.certCheck == Some(true) && !limits.sslMonitoring then PaymentRequired
                       else if r.domainCheck == Some(true) && !limits.domainMonitoring then PaymentRequired
                       else Accepted
    ensures outcome == Accepted ==> (cert <==> r.certCheck == Some(true)) && (domain <==> r.domainCheck == Some(true))
  {
    outcome, cert, domain := Accepted, false, false;
    if r.certCheck.Some? || r.domainCheck.Some? {
      if r.kind != HTTP { return BadRequest, false, false; }
      cert := r.certCheck.Some? && r.certCheck.value;
      domain := r.domainCheck.Some? && r.domainCheck.value;
      if (cert && !limits.sslMonitoring) || (domain && !limits.domainMonitoring) { outcome := PaymentRequired; }
    }
  }

  /** UpdateMonitorRequest.Validate. */
  method ValidateUpdate(r: UpdateRequest) returns (ok: bool)
    ensures ok <==> ValidUpdate(r)
  {
    var seconds := OrElse(r.interval, 0);
    if seconds != 0 && (seconds < 60 || seconds > 86400) { return false; }
    if r.timeout.Some? && (r.timeout.value < 5 || r.timeout.value > 300) { return false; }
    var ms := OrElse(r.degradedThreshold, 0);
    if ms != 0 && (ms < 100 || ms > 60000) { return false; }
    var iv, cv := OrElse(r.repeatInterval, 0), OrElse(r.repeatCount, 0);
    ok := true;
    if iv != 0 && cv != 0 { ok := ValidateRepeatAlerts(iv, cv); }
  }

  /** The plan gates of the update handler. */
  method GateUpdate(m: Monitor, r: UpdateRequest, limits: PlanLimits, d: Deployment) returns (outcome: Outcome)
    ensures outcome == UpdateVerdict(m, r, limits, d)
    ensures MeetsPlan(m, limits) ==> (outcome == Accepted <==> AdmissibleUpdate(m, r, limits, d))
  {
    if MeetsPlan(m, limits) { UpdateGateExact(m, r, limits, d); }
    if NoFields(r) { return BadRequest; }
    var ok := ValidateUpdate(r);
    if !ok { return BadRequest; }
    if r.interval.Some? {
      var effTimeout := m.timeout;
      if r.timeout.Some? { effTimeout := r.timeout.value; }
      if r.interval.value == 0 {
        if effTimeout >= limits.minInterval { return BadRequest; }
      } else {
        if r.interval.value < limits.minInterval { return PaymentRequired; }
        if effTimeout >= r.interval.value { return BadRequest; }
      }
    }
    if r.regions.Some? {
      var verdict, normalized := ValidateRegions(r.regions.value, limits, d);
      if verdict != Accepted { return verdict; }
    }
    if r.degradedThreshold.Some? && r.degradedThreshold.value != 0 && !limits.customDegradedThreshold {
      return PaymentRequired;
    }
    var iv, cv := OrElse(r.repeatInterval, 0), OrElse(r.repeatCount, 0);
    if iv != 0 && cv != 0 {
      if limits.maxAlertRepeats == 0 { return PaymentRequired; }
      if cv > limits.maxAlertRepeats { return BadRequest; }
    } else if iv != 0 || cv != 0 {
      return BadRequest;
    }
    outcome := GateExpiry(m, r, limits);
  }

  method GateExpiry(m: Monitor, r: UpdateRequest, limits: PlanLimits) returns (outcome: Outcome)
    ensures outcome == ExpiryVerdict(m, r, limits)
  {
    if r.certCheck.None? && r.domainCheck.None? { return Accepted; }
    var kind := m.kind;
    if r.kind.Some? { kind := r.kind.value; }
    var wantsCert := r.certCheck.Some? && r.certCheck.value;
    var wantsDomain := r.domainCheck.Some? && r.domainCheck.value;
    if (wantsCert || wantsDomain) && kind != HTTP { return BadRequest; }
    if (wantsCert && !limits.sslMonitoring) || (wantsDomain && !limits.domainMonitoring) { return PaymentRequired; }
    return Accepted;
  }

  /** The store's UpdateMonitor: one assignment per field present. */
  method ApplyUpdate(m: Monitor, r: UpdateRequest, now: int) returns (u: Monitor)
    ensures u == Updated(m, r, now)
  {
    var kind, interval, timeout := SetSchedule(m, r);
    var threshold, repeatInterval, repeatCount := SetAlerting(m, r);
    var cert, domain, regions := m.certCheck, m.domainCheck, m.regions;
    if r.certCheck.Some? { cert := r.certCheck.value; }
    if r.domainCheck.Some? { domain := r.domainCheck.value; }
    if r.regions.Some? { regions := Deduped(r.regions.value); }
    u := Monitor(m.user, m.org, kind, interval, timeout, regions, threshold,
                 repeatInterval, repeatCount, cert, domain, now);
  }

  method SetSchedule(m: Monitor, r: UpdateRequest) returns (kind: MonitorType, interval: Option<int>, timeout: int)
    ensures var u := Updated(m, r, 0); kind == u.kind && interval == u.interval && timeout == u.timeout
  {
    kind, interval, timeout := m.kind, m.interval, m.timeout;
    if r.kind.Some? { kind := r.kind.value; }
    if r.interval.Some? { interval := if r.interval.value == 0 then None else Some(r.interval.value); }
    if r.timeout.Some? { timeout := r.timeout.value; }
  }

  method SetAlerting(m: Monitor, r: UpdateRequest)
    returns (threshold: Option<int>, repeatInterval: Option<int>, repeatCount: Option<int>)
    ensures var u := Updated(m, r, 0);
      threshold == u.degradedThreshold && repeatInterval == u.repeatInterval && repeatCount == u.repeatCount
  {
    threshold, repeatInterval, repeatCount := m.degradedThreshold, m.repeatInterval, m.repeatCount;
    if r.degradedThreshold.Some? {
      threshold := if r.degradedThreshold.value == 0 then None else Some(r.degradedThreshold.value);
    }
    if r.repeatInterval.Some? || r.repeatCount.Some? {
      var iv, cv := OrElse(r.repeatInterval, 0), OrElse(r.repeatCount, 0);
      if iv == 0 || cv == 0 {
        repeatInterval, repeatCount := None, None;
      } else {
        repeatInterval, repeatCount := Some(iv), Some(cv);
      }
    }
  }
}
