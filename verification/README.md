# Verified model of the monitoring backend

A Dafny model of the parts of an uptime-monitoring backend whose behaviour is hard to see from
any one function: the cross-region quorum that opens and resolves incidents, the distributed
scheduler, the statistics and uptime reads, and the state machines that bound a resource (rate
limiter, expiry alerts, alert outbox, login seats, plan limits).

Tables are maps. Every call that the source makes atomic, by an advisory lock, a row lock, a
transaction, a mutex or a single goroutine, is one step with its own clock reading. Unless a
result says so, readings of successive steps need not increase. Each area has specification
functions, theorems about every run, and the source's imperative code as methods proved to be
those functions.

| files | area |
|---|---|
| `Types`, `Plans` | shared vocabulary, plan limits, effective intervals |
| `Quorum`, `QuorumRuns`, `QuorumLaws`, `QuorumMeaning`, `QuorumSolo`, `QuorumWitness`, `QuorumDatabase` | region checks, the quorum decision, incidents, alert fan-out |
| `Partition`, `Scheduler` | partition ownership and per-monitor jobs |
| `Stats`, `StatsReads`, `StatsSeries`, `Uptime`, `UptimeShape`, `UptimeMeaning` | latency statistics and daily uptime, raw and from rollups |
| `RateLimit`, `Expiry`, `Outbox`, `Seats` | the bounded-resource machines |
| `PlanGates`, `PlanReconcile` | plan gates on monitors and reconciliation on subscription changes |

`dafny verify dfyconfig.toml` checks the whole project.

## What the code does not do

Where the code and its comments or intent disagree, the model follows the code. Each of these is a
theorem with the exact condition:

- A re-evaluation of the quorum is not idempotent after a resolve, although
  `internal/scheduler/verifier.go:185` says so (`ReEvaluationExact`, and the run `OutageFlaps` from empty
  tables).
- A failing check can resolve a confirmed outage, because the confirmations it asks for count in the
  denominator until they arrive (`AllUnhealthySurvivesExact`, `FailingCheckResolves`).
- Skipping locked rows does not rule out double sending, although
  `internal/scheduler/dispatcher.go:30-31` says so: a delivery that outlives its backoff overlaps the
  next claim, and a finalization that does not commit leaves a sent row behind (`DueExactlyWhenLate`,
  `PromptRunsSendOnce`, `LapseSendsTwice`, `SlowDeliverySendsTwice`).
- An expiry bucket can fire more than once for a date when dates alternate (`AlertsExactlyUncovered`,
  `OncePerDateExact`, `AlternatingDatesRepeat`).
- A timeout-only update is not checked against the interval (`TimeoutRecheckExact`), and an update of the
  type alone leaves expiry checks on a monitor that is no longer HTTP (`HttpRecheckExact`).
- Deleting an organization moves its monitors to their creators' plans and pools unreconciled
  (`OrgDeletionExact`, `OrgDeletionMovesPools`), and a downgrade leaves a pool over its new quota
  (`DowngradeExceedsExact`).
- The statistics panic for windows of 1 to 47 ns that hold a measured check (`ComputeStats`).

## Model

| member | source | states |
|---|---|---|
| `QuorumRuns.FreshRunsAreEpisodes` | internal/database/bun/migrations/20260721120000_repeat_alerts.tx.up.sql:69-216 | from an empty incidents table, over every interleaving of checks, confirmations, sweeps, heartbeats, repeat stamps, configuration changes, creations and deletions at arbitrary clocks (ids not reused), a monitor's history is repeated (opened, at most one escalation of a DEGRADED incident to DOWN, resolved), cut off anywhere; unless it was deleted its incidents are exactly its openings |
| `QuorumRuns.RunsFollowTheGrammar` | internal/database/bun/migrations/20260721120000_repeat_alerts.tx.up.sql:166-204 | the same from any valid state, with at most one open incident of each monitor at the end and the open severity equal to what the history left |
| `QuorumRuns.EvaluateEffect` | internal/database/bun/migrations/20260721120000_repeat_alerts.tx.up.sql:151-204 | one evaluation leaves an incident open if and only if twice the unhealthy reporters exceed reporters plus pending; the reported transition is the change of open severity, and other monitors are untouched |
| `QuorumRuns.StepEffect` | internal/database/bun/migrations/20260706120000_cross_region_confirmation.tx.up.sql:249-294 | every step of a run keeps at most one open incident per monitor and, unless it deletes the monitor, moves its open severity exactly as the transition it reports |
| `QuorumLaws.EvaluateStatus` | internal/database/bun/migrations/20260721120000_repeat_alerts.tx.up.sql:182-189 | the severity left open is the sticky worst of what was open and what is reported |
| `QuorumMeaning.VotesExact` | internal/database/bun/migrations/20260721120000_repeat_alerts.tx.up.sql:122-150 | who votes, is awaited and votes unhealthy, said over the tables: a report no older than three intervals or, for a confirmation, 120 s, from a live (60 s) or configured region; an unexpired request to a live region that does not vote |
| `QuorumMeaning.DecisionExact` | internal/database/bun/migrations/20260721120000_repeat_alerts.tx.up.sql:151-204 | an incident is left open if and only if more than half of the regions that vote or are awaited vote unhealthy; it is DOWN if and only if it was DOWN or somebody votes DOWN, else DEGRADED |
| `QuorumMeaning.OpenedRow` | internal/database/bun/migrations/20260721120000_repeat_alerts.tx.up.sql:175-180 | the new incident's monitor, severity, code, counts and reports, start and alert stamp |
| `QuorumMeaning.RefreshedRow` | internal/database/bun/migrations/20260721120000_repeat_alerts.tx.up.sql:181-194 | the refreshed incident keeps its start, takes severity and text, and a new code replaces the old; escalated exactly if the severity changed |
| `QuorumMeaning.ResolvedRow` | internal/database/bun/migrations/20260721120000_repeat_alerts.tx.up.sql:195-212 | the resolved incident only gets its end and the alert stamp |
| `QuorumMeaning.ReportExact` | internal/database/bun/migrations/20260706120000_cross_region_confirmation.tx.up.sql:257-270 | the region's report becomes the check's status, latency, code, message and time, scheduled if and only if the region is configured |
| `QuorumMeaning.RequestsExact` | internal/database/bun/migrations/20260706120000_cross_region_confirmation.tx.up.sql:277-289 | requests are added exactly for live other regions not heard from for 30 s and not asked yet, for 60 s, by a failing scheduled check |
| `QuorumMeaning.CheckAnnounces` | internal/database/bun/migrations/20260706120000_cross_region_confirmation.tx.up.sql:291-294 | a check that moves the incident announces its own code, latency and time, with the severity left open or UP and the check's message, to every source, unless in maintenance |
| `QuorumMeaning.ClaimExact` | internal/database/bun/store_scheduler.go:111-153 | a claim marks exactly the chosen unclaimed, unexpired requests to its region |
| `QuorumLaws.RegionCounted` | internal/database/bun/migrations/20260706120000_cross_region_confirmation.tx.up.sql:257-294 | after a failing scheduled check another active region is in the electorate exactly when it is fresh, already asked and not expired, or newly asked |
| `QuorumLaws.CoverageExact` | internal/database/bun/migrations/20260706120000_cross_region_confirmation.tx.up.sql:257-294 | all active regions are counted if and only if no other active region sits in the gap (an expired request not yet swept, or a report recent enough to suppress a request but stale) |
| `QuorumLaws.FailingCheckNeedsActiveMajority` | internal/database/bun/migrations/20260706120000_cross_region_confirmation.tx.up.sql:257-294 | with no expired request and a freshness window of at least 30 s, every active region is counted once, and a failing check opens an incident only if unhealthy reporters exceed half of all active regions |
| `QuorumLaws.ReEvaluationExact` | internal/database/bun/migrations/20260721120000_repeat_alerts.tx.up.sql:166-204 | evaluated again at the same clock: nothing after opened, escalated or none; after resolved it reopens exactly when the fresh SCHEDULED reports alone hold an unhealthy majority |
| `QuorumLaws.PurgedElectorate` | internal/database/bun/migrations/20260721120000_repeat_alerts.tx.up.sql:201-203 | after the purge only fresh SCHEDULED reports vote |
| `QuorumLaws.AllUnhealthySurvivesExact` | internal/database/bun/migrations/20260721120000_repeat_alerts.tx.up.sql:172-204 | with every report unhealthy, an open incident is resolved if and only if at least as many regions are pending as have reported |
| `QuorumLaws.FailingCheckResolves` | internal/database/bun/migrations/20260706120000_cross_region_confirmation.tx.up.sql:261-294 | a failing check of the only configured region resolves a confirmed outage once the confirmations are stale and another region is alive |
| `QuorumLaws.FailingCheckFlaps` | internal/scheduler/verifier.go:181-200 | and a re-evaluation at the same clock then opens a second incident of the same severity, so the sweep's re-evaluation is not idempotent |
| `QuorumWitness.OutageFlaps` | internal/scheduler/verifier.go:181-200 | from empty tables, for every monitor with one region, second region, clock and severity: a run in which one unbroken outage is confirmed, a failing check falls between a sweep's delete and its re-evaluation, and the log reads opened, resolved, opened; its only re-evaluation is owed to a sweep that returned the monitor |
| `QuorumLaws.FanOutReachesEachOnce` | internal/database/bun/migrations/20260720120000_maintenance_windows.tx.up.sql:119-159 | given distinct owner channels and distinct org recipients, the rows of one announcement have pairwise distinct destinations, whose set is the effectively enabled owner channels united with all recipients of the organization; each row carries the announcement and is due at once |
| `QuorumLaws.TransitionsAnnounce` | internal/database/bun/migrations/20260721120000_repeat_alerts.tx.up.sql:206-212 | each transition enqueues exactly one announcement with the incident's severity (UP when resolved), and nothing is enqueued without one or in maintenance |
| `QuorumLaws.IntervalsAgreeExact` | internal/database/bun/migrations/20260707120000_follow_plan_interval.tx.up.sql:23-28 | Go's and SQL's effective intervals agree if and only if an override is set or the timeout is below a known plan's floor; SQL's is never longer |
| `Plans.EffectiveIntervalExact` | internal/models/plan.go:108-117 | an override stands; otherwise the plan's minimum, or one second more than a timeout that reaches it |
| `Plans.EntitlementExact` | internal/api/handlers/limits.go:14-19 | ACTIVE, TRIALING and PAST_DUE are entitled to the stored plan; CANCELED and no record are FREE |
| `Plans.PlanFigures` | internal/models/plan.go:121-134 | the figures of the three plans, and FREE for any other name |
| `QuorumLaws.StaleNeverFreshExact` | internal/database/bun/store.go:428-441 | a region the API calls stale never counts as fresh in the quorum, if and only if the effective interval is at least 40 s; for scheduled reports always |
| `QuorumSolo.SoloCheck` | internal/database/bun/migrations/20260706120000_cross_region_confirmation.tx.up.sql:249-294 | with one configured region and no other alive, one check moves the quorum machine exactly as the simple tracker and leaves it settled |
| `QuorumSolo.SoloReEvaluate` | internal/database/bun/store_scheduler.go:195-210 | a re-evaluation reports nothing if and only if the report is fresh and already accounted for, or stale with nothing open; then it changes nothing either |
| `QuorumSolo.SoloRefinesTracker` | internal/database/bun/migrations/20260706120000_cross_region_confirmation.tx.up.sql:249-294 | over every such run, silent re-evaluations of the monitor included: same open severity, same history, never a confirmation request |
| `QuorumDatabase.Database.Tally` | internal/database/bun/migrations/20260721120000_repeat_alerts.tx.up.sql:125-164 | the common table expressions compute the electorate, the unhealthy reporters, the worst status and the text |
| `QuorumDatabase.Database.UpsertHeartbeat` | internal/database/bun/store_scheduler.go:97-105 | sets the region's heartbeat and nothing else |
| `QuorumDatabase.Database.Open` | internal/database/bun/migrations/20260721120000_repeat_alerts.tx.up.sql:175-180 | inserts the incident with the worst reported status |
| `QuorumDatabase.Database.Refresh` | internal/database/bun/migrations/20260721120000_repeat_alerts.tx.up.sql:181-194 | refreshes status, text and code of the open incident, and reports an escalation exactly when its status changed |
| `QuorumDatabase.Database.Resolve` | internal/database/bun/migrations/20260721120000_repeat_alerts.tx.up.sql:195-204 | resolves the incident and deletes the monitor's confirmations and requests |
| `QuorumDatabase.Database.Transact` | internal/database/bun/migrations/20260721120000_repeat_alerts.tx.up.sql:166-212 | the transition branches, the purge and the stamp of the last alert |
| `QuorumDatabase.Database.EvaluateMonitorQuorum` | internal/database/bun/migrations/20260721120000_repeat_alerts.tx.up.sql:69-216 | the imperative function is the specified evaluation and keeps at most one open incident per monitor |
| `QuorumDatabase.Database.RecordRegionCheck` | internal/database/bun/migrations/20260706120000_cross_region_confirmation.tx.up.sql:249-294 | the imperative function upserts, asks for confirmations and evaluates as specified |
| `QuorumDatabase.Database.RequestConfirmations` | internal/database/bun/migrations/20260706120000_cross_region_confirmation.tx.up.sql:277-289 | requests go to exactly the other live regions without a recent outcome or an outstanding request |
| `QuorumDatabase.Database.EnqueueMonitorAlerts` | internal/database/bun/migrations/20260720120000_maintenance_windows.tx.up.sql:92-163 | nothing for a missing monitor; otherwise the inserted rows are the announcement's, one per source, and the count is theirs |
| `QuorumDatabase.Database.CompleteVerificationRequest` | internal/database/bun/store_scheduler.go:157-162 | deletes that request and nothing else |
| `QuorumDatabase.Database.ExpireVerificationRequests` | internal/database/bun/store_scheduler.go:166-191 | deletes the expired unlocked requests and returns each affected monitor once |
| `Partition.PartitionsAgree` | internal/coordination/partition.go:44-59 | up to 2^30 partitions Go's and SQL's partition are the Euclidean remainder, without overflow |
| `Partition.PartitionBoundExact` | internal/coordination/partition.go:44-59 | that holds for all 32-bit hashes if and only if there are at most 2^30 partitions |
| `Partition.IndexOfMeans` | internal/coordination/partition.go:65-71 | the instance index is the first occurrence, and -1 exactly when absent |
| `Partition.OwnershipPartitions` | internal/coordination/partition.go:87-94 | for a distinct non-empty membership every partition has exactly one owner |
| `Partition.OwnershipBalanced` | internal/coordination/partition.go:87-94 | live instances own numbers of partitions that differ by at most one |
| `Partition.OwnedExact` | internal/coordination/partition.go:87-94 | partition p belongs to the instance at position p modulo the number of instances |
| `Partition.AbsentOwnsNothing` | internal/coordination/partition.go:73-85 | an instance missing from the membership owns nothing |
| `Partition.DeltasRebuildOwnership` | internal/coordination/partition.go:96-117 | replaying all gained and lost deltas rebuilds the ownership through any run of memberships |
| `Partition.PartitionManager.RecalculateOwnership` | internal/coordination/partition.go:61-118 | the loops compute the specified ownership and its sorted delta |
| `Scheduler.ExactlyOneOwner` | internal/scheduler/distributed.go:133-149 | instances that apply one membership want each active monitor exactly once between them |
| `Scheduler.FleetRunsEachMonitorOnce` | internal/scheduler/distributed.go:61-89 | once they have synced, a monitor runs in exactly one of them, with its current row, if it is enabled and lists the region, and in none otherwise |
| `Scheduler.DistributedScheduler.ApplyOwnership` | internal/scheduler/distributed.go:96-131 | exactly the jobs of partitions still owned survive, untouched |
| `Scheduler.DistributedScheduler.FetchOwnedMonitors` | internal/scheduler/distributed.go:137-149 | the empty, full and filtered queries all return the enabled monitors that list the region and whose Go partition is owned |
| `Scheduler.DistributedScheduler.ReconcileJob` | internal/scheduler/distributed.go:183-197 | a job whose row is unchanged is kept; otherwise the old one is cancelled and one new job runs |
| `Scheduler.DistributedScheduler.SyncMonitors` | internal/scheduler/distributed.go:151-179 | after a successful sync a monitor has a job if and only if it is enabled, lists the region and is owned, with the row's time and interval; unchanged jobs are not restarted; a failed query changes nothing |
| `Scheduler.DistributedScheduler.Step` | internal/scheduler/distributed.go:67-88 | every round keeps: uncancelled jobs are the map's values, one per monitor, all in owned partitions |
| `Scheduler.DistributedScheduler.Run` | internal/scheduler/distributed.go:61-89 | over every run the same, with ownership that of the last membership applied |
| `Scheduler.DistributedScheduler.Stop` | internal/scheduler/distributed.go:220-225 | stopping cancels every job |
| `Stats.RawSummaryMeans` | internal/database/bun/store.go:1654-1684 | the raw figures are the count, sum, least and greatest of the measured latencies |
| `Stats.RawSummaryPermutes` | internal/database/bun/store.go:1654-1684 | the order of the checks does not matter |
| `Stats.AggregatesExact` | internal/database/bun/migrations/20260909120000_latency_excludes_down.tx.up.sql:22-28 | a row holds the SQL aggregates of a group (counts by status, sum, least and greatest measured latency, zeros when none) if and only if it is the raw path's fold of that group |
| `Stats.RollupSummaryIsRaw` | internal/database/bun/store.go:1747-1778 | rows rolled up from any groups of checks sum up to the checks themselves |
| `Stats.RollupsAgreeWithRaw` | internal/database/bun/store.go:1747-1778 | for any grouping and order, the rollup path gives the raw path's min, max, average and total |
| `Stats.RollupsAreConsistent` | internal/database/bun/migrations/20260909120000_latency_excludes_down.tx.up.sql:15-48 | a refreshed rollup row keeps its sum between count times its least and count times its greatest latency |
| `Stats.BucketsConserve` | internal/database/bun/store.go:1686-1720 | the 48 buckets together hold every measured sample exactly once |
| `Stats.PointsIncrease` | internal/database/bun/store.go:1686-1720 | at most one point per bucket, timestamps strictly increasing inside the window |
| `Stats.PointsWithin` | internal/database/bun/store.go:1686-1720 | every average lies between bounds on the samples |
| `StatsReads.ComputeStats` | internal/database/bun/store.go:1654-1720 | the loops compute the specified figures and series, and panic exactly for a window of 1 to 47 ns with a measured check |
| `StatsReads.ComputeStatsFromRollups` | internal/database/bun/store.go:1747-1814 | the same for the rollup path, with the empty answer when the rows hold no check |
| `StatsReads.RawSeriesIsGood` | internal/database/bun/store.go:1686-1720 | raw path: at most 48 points, increasing, each average within [min, max], sum and count conserved |
| `StatsReads.RollupSeriesIsGood` | internal/database/bun/store.go:1780-1814 | rollup path: the same |
| `StatsSeries.SlotExact` | internal/database/bun/store.go:1701-1707 | a sample goes to the bucket its instant falls in, early ones to the first and late ones to the last |
| `StatsSeries.RawSeriesExact` | internal/database/bun/store.go:1686-1720 | the points of the raw series are exactly, for each of the 48 stretches in which a check was measured, its middle and the mean latency of the checks in it that were not DOWN |
| `StatsSeries.RollupSeriesExact` | internal/database/bun/store.go:1780-1814 | the points of the rollup series are exactly, for each stretch in which a measured hour starts, its middle and the mean latency of those rows |
| `StatsSeries.HeadlineExact` | internal/database/bun/store.go:1654-1684 | the headline counts all checks; min, max and average are the least, greatest and mean measured latency, zeros when none |
| `Uptime.LegsDisjoint` | internal/database/bun/store.go:1845-1851 | for any offset no check is selected by both legs |
| `Uptime.LegsCover` | internal/database/bun/store.go:1845-1851 | with the window starting on the hour each check since then is selected by exactly one leg |
| `Uptime.SpliceTotals` | internal/database/bun/store.go:631-677 | for whole-hour offsets and up-to-date rollups the two legs carry, per day and region, the sums of all raw checks since the window start, whatever the two clock readings |
| `UptimeShape.SplicedReadIsExact` | internal/database/bun/store.go:631-684 | so the merged read accumulates to the same per-day tables as all raw checks, which determine the answer |
| `UptimeShape.SpliceCountsOnce` | internal/database/bun/store.go:631-684 | for any offset the checks behind the legs are a selection of the raw checks, each at most once; it is complete if and only if no check lies in the partial first hour |
| `UptimeShape.SeriesFillsWindow` | internal/database/bun/store.go:1865-1940 | exactly the requested days, oldest first, each with the percentage of its own rows |
| `UptimeShape.ComputeDailyUptime` | internal/database/bun/store.go:1865-1940 | the loops compute that series and the trailing week's percentage |
| `UptimeMeaning.PercentExact` | internal/database/bun/store.go:1892-1920 | a day's figure is the mean over reporting regions, in any order, of p with p * total = 100 * available |
| `UptimeMeaning.MeanTimes` | internal/database/bun/store.go:1916-1920 | no figure if nobody reported; otherwise n times the mean is the sum |
| `UptimeMeaning.PercentRange` | internal/database/bun/store.go:1892-1937 | a figure lies in [0, 100]; it is 100 if and only if every reporting region was always available, 0 if and only if none ever was |
| `UptimeMeaning.WeekExact` | internal/database/bun/store.go:1904-1912 | the weekly figure pools, per region, exactly the last seven days, or all if fewer are asked for |
| `UptimeMeaning.CheckTotalExact` | internal/database/bun/store.go:663-673 | per day and region all checks are counted, and as available those that found the target UP or DEGRADED |
| `UptimeMeaning.DayInExact` | internal/database/bun/store.go:665-665 | a check belongs to the caller's day between whose midnights it ran |
| `UptimeMeaning.WindowExact` | internal/database/bun/store.go:631-634 | the window holds exactly the instants of the requested days and of days to come |
| `UptimeMeaning.CutoffExact` | internal/database/bun/store.go:1845-1851 | the raw leg starts on the hour 25 hours back, or with the window if that is later |
| `RateLimit.WindowBudget` | internal/api/middleware/ratelimit.go:129-157 | one address is admitted at most limit times (once if the limit is below one) per fixed window |
| `RateLimit.SlidingBudget` | internal/api/middleware/ratelimit.go:129-157 | and at most 2*limit - 1 times in any closed stretch of one window's length, for every ordered run |
| `RateLimit.SlidingBudgetIsTight` | internal/api/middleware/ratelimit.go:129-157 | for every positive limit and window some run reaches 2*limit - 1 |
| `RateLimit.RefusedOnlyWhenSpent` | internal/api/middleware/ratelimit.go:151-156 | a request is refused exactly when the live window already admitted limit requests, and then the last window's length did |
| `RateLimit.HeadersAreTrue` | internal/api/middleware/ratelimit.go:144-166 | the remaining budget is the limit less the grants charged to the window, never negative, and the window is live up to the announced reset and not after |
| `RateLimit.CleanupInvisible` | internal/api/middleware/ratelimit.go:133-149 | with a non-decreasing clock the periodic cleanup never changes an answer |
| `RateLimit.AddressesAreIndependent` | internal/api/middleware/ratelimit.go:144-157 | an address sees only its own requests |
| `RateLimit.LimiterBudget` | internal/api/middleware/ratelimit.go:129-157 | the limiter as it runs, cleanup included, admits any address at most 2*limit - 1 times in any such stretch |
| `RateLimit.RateLimiter.AllowMemory` | internal/api/middleware/ratelimit.go:129-157 | the locked call answers and updates as specified |
| `Expiry.DaysLeft` | internal/models/expiry.go:65-72 | truncation and decrement are the floor, before and after expiry |
| `Expiry.DeepestPoint` | internal/models/expiry.go:47-61 | the bucket is the deepest escalation point covering the days left, and none exactly when no point does |
| `Expiry.FiresDescend` | internal/database/bun/store_scheduler.go:306-330 | in every run the row remembers the last alert, and alerts for an unchanged date strictly descend |
| `Expiry.SameDateDescends` | internal/database/bun/store_scheduler.go:309-313 | while the date stays the same, every alert is strictly deeper than all before it |
| `Expiry.AtMostFourPerDate` | internal/database/bun/store_scheduler.go:309-313 | with a fixed threshold of at least 1 at most four alerts per date |
| `Expiry.FiresExact` | internal/database/bun/store_scheduler.go:309-313 | after any run that has alerted, the next check alerts if and only if it lies in a bucket and the latest alert was for another date or a shallower bucket |
| `Expiry.RepeatNeedsOtherDate` | internal/database/bun/store_scheduler.go:309-313 | a bucket no deeper than an earlier one fires again for a date only after an alert for another date |
| `Expiry.OtherDateRepeats` | internal/database/bun/store_scheduler.go:309-313 | and an announced (date, bucket) is announced again whenever the latest alert was for another date |
| `Expiry.AlertsExactlyUncovered` | internal/database/bun/store_scheduler.go:309-313 | from any row, a check of a run alerts if and only if it lies in a bucket and neither the starting row nor an earlier check covers it: same date, bucket as deep, and no bucket of another date since |
| `Expiry.OncePerDateExact` | internal/database/bun/store_scheduler.go:309-313 | over every run, each bucket is announced at most once per date if and only if no two uncovered checks share date and bucket |
| `Expiry.AlternatingDatesRepeat` | internal/database/bun/store_scheduler.go:309-313 | which does happen: from any row, two different dates in any buckets reported in turn alert at every report after the first |
| `Expiry.DeepestIsRecorded` | internal/database/bun/store_scheduler.go:315-326 | after any run for a date, from any row, it records exactly the deepest of what it held for that date and the buckets successful checks lay in |
| `Expiry.LatestIsShown` | internal/database/bun/store_scheduler.go:284-326 | the row shows the latest check's error or none, and the date of the latest successful check |
| `Expiry.ErrorsChangeNoAlert` | internal/database/bun/store_scheduler.go:284-291 | dropping all failed checks changes neither the alerts nor the recorded state |
| `Expiry.ExpiryStore.RecordExpiryCheck` | internal/database/bun/store_scheduler.go:283-347 | the transaction updates that row as specified, enqueues when it fires outside maintenance, and reports a missing row or date |
| `Outbox.RunsKeepInv` | internal/database/bun/store_scheduler.go:435-508 | over every run of enqueues, claims, deliveries, crashes and cascades: attempts count the claims, and each row is in the table or removed with its source or finalized |
| `Outbox.NextClaimWaits` | internal/database/bun/store_scheduler.go:437-446 | whatever the clocks, the claim after the k-th comes at least min(30*2^(k-1), 1800) s later, with attempts one higher |
| `Outbox.BackoffExact` | internal/database/bun/store_scheduler.go:439-439 | the wait is 30 s, doubles up to the sixth claim, and is half an hour from then on |
| `Outbox.GivenUpExact` | internal/scheduler/dispatcher.go:140-148 | a failed delivery whose finalization commits removes the row and records the give-up if and only if it was at least the eighth attempt |
| `Outbox.SentIsFinal` | internal/scheduler/dispatcher.go:134-138 | a sent alert is finalized if and only if its finalization commits |
| `Outbox.GivenUpLate` | internal/scheduler/dispatcher.go:134-148 | an alert finalized without success had at least 8 attempts, the 8th at least 3690 s after the first |
| `Outbox.OverlapMeansLate` | internal/database/bun/store_scheduler.go:437-446 | a row is claimed while another dispatcher holds it only if that one outlived its backoff |
| `Outbox.DueExactlyWhenLate` | internal/database/bun/store_scheduler.go:437-446 | for the latest holder of a row: the row can be claimed again if and only if that holder is late |
| `Outbox.OverlapIsEarly` | internal/scheduler/dispatcher.go:88-114 | deliveries that end within the batch's two minutes overlap a claim only on a row's first two attempts |
| `Outbox.StepSingle` | internal/database/bun/store_scheduler.go:435-508 | from one copy per row and none once sent, a step keeps to that if and only if it takes no row from a late holder and commits the finalization of a sent row still in the table |
| `Outbox.PromptRunsSendOnce` | internal/scheduler/dispatcher.go:29-33 | so a run keeps to one copy per row throughout if and only if all its steps are of that kind, and then no alert is sent twice |
| `Outbox.LateHolderSendsTwice` | internal/scheduler/dispatcher.go:88-114 | conversely, after any run a claim that takes a row another dispatcher still holds can lead to two sends of it |
| `Outbox.UnstoredSendsTwice` | internal/scheduler/dispatcher.go:151-157 | and after any run, a sent alert whose finalization does not commit can be sent again once due |
| `Outbox.LapseSendsTwice` | internal/scheduler/dispatcher.go:88-114 | so after any run, every step that is not of that kind can lead to some alert sent twice |
| `Outbox.SlowDeliverySendsTwice` | internal/scheduler/dispatcher.go:88-114 | from the empty outbox any alert can be sent twice: a first delivery of 30 seconds suffices |
| `Outbox.OutboxStore.SelectDue` | internal/database/bun/store_scheduler.go:440-446 | due unlocked rows, earliest first, as many as the limit allows |
| `Outbox.OutboxStore.ClaimOutboxAlerts` | internal/database/bun/store_scheduler.go:435-477 | claims such rows, earliest first, and sets attempts and backoff |
| `Outbox.OutboxStore.Deliver` | internal/scheduler/dispatcher.go:116-149 | removes the row and writes history if and only if it was sent or had at least 8 attempts, and the transaction commits |
| `Seats.MembersWithinCap` | internal/database/bun/store.go:1299-1374 | for a constant cap, non-owner members never exceed it, in any interleaving of invite, accept, revoke, expire, removal and role change |
| `Seats.AcceptConservesSeats` | internal/database/bun/store.go:1299-1374 | each accept leaves the seats in use unchanged in every organization |
| `Seats.AcceptExact` | internal/database/bun/store.go:1306-1363 | the transaction over the tables: not found, no seat, already a member or done, in that order; on success exactly the new member with the invitation's role and the closed invitation are written |
| `Seats.RefusedExactlyWhenOverbooked` | internal/database/bun/store.go:1330-1343 | a live invitation is refused for want of seats if and only if the organization uses more than its cap |
| `Seats.ClosedForGood` | internal/database/bun/store.go:1376-1407 | once an invitation has left PENDING it never changes again |
| `Seats.PromisedSeatsHold` | internal/api/handlers/invitations.go:58-79 | if every invitation passed its quota check when inserted, no live invitation is ever refused for want of a seat |
| `Seats.SeatStore.AcceptInvitation` | internal/database/bun/store.go:1299-1374 | the transaction is the specified accept of the invitation with that token |
| `Seats.SeatStore.RevokeInvitation` | internal/database/bun/store.go:1376-1395 | marks REVOKED exactly a pending invitation |
| `Seats.SeatStore.ExpireInvitation` | internal/database/bun/store.go:1400-1407 | marks EXPIRED exactly a pending invitation |
| `Seats.SeatStore.CreateInvitation` | internal/api/handlers/invitations.go:40-98 | refused exactly for a live duplicate in a successful listing, or for a full house; on success the new invitation is the only pending one for its address unless the listing failed |
| `Seats.SeatStore.RemoveMember` | internal/api/handlers/members.go:76-107 | removes exactly a non-owner member; the owner is refused and a stranger not found |
| `Seats.SeatStore.UpdateMemberRole` | internal/api/handlers/members.go:41-74 | changes exactly a non-owner member's role; the owner is refused and a stranger not found |
| `PlanGates.CreateGateExact` | internal/api/handlers/monitors.go:82-175 | a create is accepted if and only if it is valid, for offered regions, asks for expiry checks only on HTTP, and the resulting monitor meets the plan with its timeout below its interval |
| `PlanGates.UpdateGateExact` | internal/api/handlers/monitors.go:287-422 | for a compliant monitor an update is accepted if and only if it is valid, for offered regions, the repeat pair is whole, expiry checks are asked for on HTTP only, the resulting monitor is compliant and a changed interval fits the timeout |
| `PlanGates.RegionsVerdictExact` | internal/api/handlers/regions.go:61-82 | regions are accepted if and only if known, deployed, non-empty and within the cap after removing repeats; over the cap alone asks for payment |
| `PlanGates.CreateRefusalExact` | internal/api/handlers/monitors.go:82-175 | a valid create is told to upgrade only for what a higher plan allows and called a bad request only for what is wrong as such, and accepted if and only if neither applies |
| `PlanGates.UpdateRefusalExact` | internal/api/handlers/monitors.go:317-422 | the same for a valid update |
| `PlanGates.CreatedExact` | internal/database/bun/store.go:73-92 | the row of an accepted create holds what was asked for, field by field, zero standing for the default |
| `PlanGates.UpdatedExact` | internal/database/bun/store.go:195-312 | the row of an accepted update holds what was asked for, and every absent field as it was |
| `PlanGates.DedupedKeepsOrder` | internal/models/monitor.go:193-210 | regions keep the order in which they were first asked for |
| `PlanGates.CreatedMeetsPlan` | internal/api/handlers/monitors.go:82-175 | an accepted create meets the plan in force, has a region, and its timeout is below its interval |
| `PlanGates.UpdatedMeetsPlan` | internal/api/handlers/monitors.go:317-422 | an accepted update of a compliant monitor stays compliant |
| `PlanGates.TimeoutRecheckExact` | internal/api/handlers/monitors.go:325-353 | an accepted update keeps the timeout below the interval if and only if it sets the interval, or no timeout, or a timeout below the interval in force |
| `PlanGates.TimeoutOnlyUpdateBreaks` | internal/api/handlers/monitors.go:317-353 | a PRO monitor for which a timeout-only update breaks it |
| `PlanGates.HttpRecheckExact` | internal/api/handlers/monitors.go:402-421 | an accepted update keeps expiry checks on HTTP monitors only if and only if it keeps or sets HTTP, or mentions every check that is on |
| `PlanGates.TypeOnlyUpdateBreaks` | internal/api/handlers/monitors.go:402-421 | an ENTERPRISE monitor for which an update of the type alone breaks it |
| `PlanGates.NormalizeRegions` | internal/models/monitor.go:193-210 | the loop dedupes in order and fails exactly on an empty list or an unknown region |
| `PlanGates.ValidateRegions` | internal/api/handlers/regions.go:61-82 | the handler's region checks in order reach that verdict and return the list without repeats |
| `PlanGates.GateCreate` | internal/api/handlers/monitors.go:25-175 | the create handler's guards, one after another, accept exactly the admissible requests and build the row |
| `PlanGates.GateUpdate` | internal/api/handlers/monitors.go:287-422 | the update handler's guards, one after another, accept for a compliant monitor exactly the admissible updates |
| `PlanGates.ApplyUpdate` | internal/database/bun/store.go:195-312 | the store's assignments: 0 stores NULL, absent fields keep their value, the repeat pair is set or cleared together |
| `PlanReconcile.ReconciledMeetsPlan` | internal/database/bun/store.go:1483-1605 | between any two plans, what met the old plan meets the new one |
| `PlanReconcile.ReconciledUntouched` | internal/database/bun/store.go:1483-1605 | a monitor that meets the new plan is not touched, not even its timestamp |
| `PlanReconcile.ReconcileIdempotent` | internal/database/bun/store.go:1483-1605 | reconciling again changes nothing |
| `PlanReconcile.ReconcileLosesLittle` | internal/database/bun/store.go:1495-1526 | overrides are raised exactly to the floor and exactly the first regions stay |
| `PlanReconcile.ReconcileKeepsOffered` | internal/database/bun/store.go:1544-1602 | a feature the new plan still offers keeps its settings |
| `PlanReconcile.ReconcileStamps` | internal/database/bun/store.go:1496-1598 | a monitor that is changed gets a new timestamp |
| `PlanReconcile.RunsStayCompliant` | internal/api/handlers/subscriptions.go:69-97 | over any run of creates, updates, deletes, new organizations and subscription syncs every monitor meets the plan of whoever pays for it |
| `PlanReconcile.FloorHolds` | internal/models/plan.go:108-117 | so every effective interval is at least the plan's floor |
| `PlanReconcile.CreateWithinQuota` | internal/database/bun/store.go:96-123 | an accepted create leaves the payer's pool within the payer's current quota and no other pool larger |
| `PlanReconcile.PoolsStayBounded` | internal/database/bun/store.go:96-123 | a run during which a user's quota is at most some cap, such as one that keeps a plan, leaves the pool within the larger of its start and that cap |
| `PlanReconcile.DowngradeExceedsExact` | internal/api/handlers/subscriptions.go:69-97 | a subscription change leaves the pool over the new quota if and only if it was larger than that before |
| `PlanReconcile.OrgDeletionMovesPools` | internal/database/bun/migrations/20260528002800_add_orgs.tx.up.sql:169-169 | deleting an organization moves each of its monitors from the owner's pool to its creator's |
| `PlanReconcile.OrgDeletionExact` | internal/database/bun/migrations/20260528002800_add_orgs.tx.up.sql:169-169 | deleting an organization keeps compliance if and only if each of its monitors meets its creator's own plan |
| `PlanReconcile.OrgDeletionBreaks` | internal/database/bun/migrations/20260528002800_add_orgs.tx.up.sql:169-169 | which can fail |
| `PlanReconcile.PlanStore.ReconcileMonitorsToPlan` | internal/database/bun/store.go:1483-1605 | the five bulk updates reconcile exactly the billing scope, and a total of zero means nothing changed |
| `PlanReconcile.PlanStore.SyncSubscription` | internal/api/handlers/subscriptions.go:69-97 | upserts and reconciles exactly when the effective plan moved |
| `PlanReconcile.PlanStore.CreateMonitor` | internal/api/handlers/monitors.go:76-203 | inserts if and only if the request is admissible under the payer's plan and the payer's pool is below its quota; keeps all monitors compliant and the pool within the quota in force |
| `PlanReconcile.PlanStore.UpdateMonitor` | internal/api/handlers/monitors.go:304-440 | changes the monitor if and only if, in a compliant table, the update is admissible under the plan of whoever pays for it; keeps all monitors compliant |

## Left out

- Checkers, alert senders, mail, HTTP routing, authentication, Stripe and etcd clients: a check, a delivery, a subscription payload and a membership list are arbitrary inputs of a step.
- Maintenance windows and the choice of incidents to repeat: whether a monitor is in maintenance is an arbitrary boolean of each evaluation, and a repeat is an arbitrary stamp on an open incident.
- Alert texts, status-dependent subjects and history messages: texts are kept as the data they are formatted from.
- md5 and generated ids: the hash is any function to 32-bit integers, ids come from a counter or are assumed new.
- Floating point: averages and percentages are exact reals, days left are exact integers, so rounding of large sums is not captured.
- Clock precision: the alerting tables use whole milliseconds and expiry dates whole microseconds, so the rounding of finer readings on storage is not captured.
- Overflow of the outbox interval arithmetic after dozens of claims and of 32-bit row counts: both are unbounded integers.
- Races between a handler's reads and its writes: creating or updating a monitor, syncing a subscription and inviting run as one step each, except that an invitation's insert may also follow a stale quota check in the seat cap theorem.
- A failed reconcile after a subscription write, and the cleanup of region status rows of trimmed regions.
- Access control on monitors and organizations: a step acts on behalf of a caller who passed it.
- Reuse of a deleted monitor's id in the quorum runs: ids are generated fresh.
- Goroutine interleaving below these steps, and the Redis limiter.
- Deletion of organizations in the seat runs, retention, table partitioning and one-off data migrations.
- Field lengths, target validation, notification channel limits and the seeding and claiming of due expiry checks: each settled by a single branch.
