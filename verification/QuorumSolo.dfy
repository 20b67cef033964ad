/**
 * A monitor checked from one region, with no other region alive, behaves like the simple
 * per-check incident tracker, over every run.
 */
module QuorumSolo {
  import opened Types
  import opened Plans
  import opened Quorum
  import opened QuorumRuns
  import opened QuorumLaws

  // ---------- The tracker ----------

  /** Open on the first unhealthy check, keep the worst status, close on the first UP. */
  function Track(open: Option<Status>, status: Status): Option<Status> {
    if status == UP then None
    else if open == Some(DOWN) then open
    else Some(status)
  }

  function Change(before: Option<Status>, after: Option<Status>): Transition {
    if before == after then Nothing
    else if before.None? then Opened
    else if after.None? then Resolved
    else Escalated
  }

  /** The statuses a run reports for m, in order. */
  function StatusesOf(steps: seq<Step>, m: MonitorId): seq<Status> {
    if steps == [] then [] else
    (if steps[0].Recheck? && steps[0].m == m then [steps[0].check.status] else []) + StatusesOf(steps[1..], m)
  }

  function Tracked(open: Option<Status>, statuses: seq<Status>): Option<Status>
    decreases |statuses|
  {
    if statuses == [] then open else Tracked(Track(open, statuses[0]), statuses[1..])
  }

  function TrackerLog(open: Option<Status>, statuses: seq<Status>): seq<Entry>
    decreases |statuses|
  {
    if statuses == [] then [] else
    var after := Track(open, statuses[0]);
    var t := Change(open, after);
    (if t == Nothing then [] else [Entry(t, after)]) + TrackerLog(after, statuses[1..])
  }

  // ---------- Solo runs ----------

  ghost predicate Solo(db: Db, m: MonitorId, r: Region) {
    && m in db.config.monitors && db.config.monitors[m].regions == [r]
    && RowsOf(db.statuses, m).Keys <= {r}
    && RowsOf(db.requests, m) == map[]
  }

  /** The open severity already accounts for r's report, as it does from the first tracked check on. */
  ghost predicate Settled(db: Db, m: MonitorId, r: Region) {
    var rows, open := RowsOf(db.statuses, m), OpenStatus(db.incidents, m);
    r in rows ==> Track(open, rows[r].status) == open
  }

  ghost predicate Fresh(db: Db, m: MonitorId, r: Region, now: int)
    requires m in db.config.monitors
  {
    var rows := RowsOf(db.statuses, m);
    r in rows && IsFresh(rows[r], now, FreshWindow(db.config, db.config.monitors[m]))
  }

  /** When a re-evaluation of m is silent: its report is fresh and accounted for, or nothing is open. */
  ghost predicate Silent(db: Db, m: MonitorId, r: Region, now: int)
    requires m in db.config.monitors
  {
    if Fresh(db, m, r, now) then Settled(db, m, r) else OpenStatus(db.incidents, m).None?
  }

  /**
   * Checks of m come from r while no other region is alive; m stays configured for r alone. A sweep
   * under way may still re-evaluate m, as long as that is silent.
   */
  ghost predicate SoloStep(db: Db, s: Step, m: MonitorId, r: Region) {
    match s
    case Recheck(k, check) => k == m ==> check.region == r && Active(db, check.now) <= {r}
    case ReEvaluate(k, now, _) => k == m && m in db.config.monitors ==> Silent(db, m, r, now)
    case Elsewhere(config, _) => m in config.monitors ==> config.monitors[m].regions == [r]
    case DeleteMonitor(k) => k != m
    case _ => true
  }

  ghost predicate SoloRun(db: Db, steps: seq<Step>, m: MonitorId, r: Region)
    decreases |steps|
  {
    steps == [] || (SoloStep(db, steps[0], m, r) && SoloRun(Next(db, steps[0]), steps[1..], m, r))
  }

  lemma SoloAsksNobody(db: Db, m: MonitorId, r: Region, c: Check)
    requires Solo(db, m, r) && c.region == r && Active(db, c.now) <= {r}
    ensures RowsOf(Recorded(db, m, c).requests, m) == map[]
  {
    assert Active(Upsert(db, m, c), c.now) == Active(db, c.now);
    assert ToConfirm(Upsert(db, m, c), m, r, c.now) == {};
  }

  /** Recording a check from the only live region leaves one report and asks nobody. */
  lemma SoloRecorded(db: Db, m: MonitorId, r: Region, c: Check)
    requires Solo(db, m, r) && c.region == r && Active(db, c.now) <= {r}
    ensures var db1 := Recorded(db, m, c);
      && Solo(db1, m, r) && db1.heartbeats == db.heartbeats
      && r in RowsOf(db1.statuses, m)
      && RowsOf(db1.statuses, m)[r].checkedAt == c.now && RowsOf(db1.statuses, m)[r].status == c.status
  {
    SoloAsksNobody(db, m, r, c);
  }

  /** One fresh report and nobody pending: that report decides. */
  lemma SoloElectorate(db: Db, m: MonitorId, r: Region, now: int)
    requires Solo(db, m, r) && Fresh(db, m, r, now)
    ensures var status := RowsOf(db.statuses, m)[r].status;
      && (Majority(db, m, now) <==> status != UP)
      && (status != UP ==> Worst(db, m, now) == status)
  {
    var status := RowsOf(db.statuses, m)[r].status;
    assert Reporters(db, m, now) == {r};
    assert Pending(db, m, now) == {};
    assert Electorate(db, m, now) == {r};
    assert Unhealthy(db, m, now) == if status == UP then {} else {r};
    assert status != UP ==> r in Unhealthy(db, m, now);
  }

  /** A lawful transition is the change it makes. */
  lemma MovesIsChange(before: Option<Status>, t: Transition, after: Option<Status>)
    requires Moves(before, t, after)
    ensures t == Change(before, after)
  {
  }

  lemma SoloEvaluate(db: Db, m: MonitorId, e: Evaluation, status: Status)
    requires Valid(db) && m in db.config.monitors
    requires (Majority(db, m, e.now) <==> status != UP) && (status != UP ==> Worst(db, m, e.now) == status)
    ensures var o := Evaluate(db, m, e); var before := OpenStatus(db.incidents, m);
      && OpenStatus(o.db.incidents, m) == Track(before, status)
      && o.transition == Change(before, Track(before, status))
  {
    var o := Evaluate(db, m, e);
    EvaluateEffect(db, m, e, m);
    EvaluateStatus(db, m, e);
    OpenIsBad(db.incidents, db.nextId, m);
    MovesIsChange(OpenStatus(db.incidents, m), o.transition, OpenStatus(o.db.incidents, m));
  }

  lemma SoloKept(db: Db, m: MonitorId, r: Region, e: Evaluation)
    requires Valid(db) && Solo(db, m, r)
    ensures Solo(Evaluate(db, m, e).db, m, r)
  {
    EvaluateRows(db, m, e, m);
  }

  /** One check moves the quorum machine exactly as it moves the tracker, and settles it. */
  lemma SoloCheck(db: Db, m: MonitorId, r: Region, c: Check)
    requires Valid(db) && Solo(db, m, r) && c.region == r && Active(db, c.now) <= {r}
    ensures var o := RecordCheck(db, m, c); var before := OpenStatus(db.incidents, m);
      && Solo(o.db, m, r) && Settled(o.db, m, r)
      && OpenStatus(o.db.incidents, m) == Track(before, c.status)
      && o.transition == Change(before, Track(before, c.status))
  {
    var db1 := Recorded(db, m, c);
    RecordedEffect(db, m, c);
    SoloRecorded(db, m, r, c);
    SoloElectorate(db1, m, r, c.now);
    SoloEvaluate(db1, m, EvaluationOf(c), c.status);
    SoloKept(db1, m, r, EvaluationOf(c));
    SoloRowKept(db1, m, r, EvaluationOf(c));
  }

  /** An evaluation leaves r's own report alone, or purges it. */
  lemma SoloRowKept(db: Db, m: MonitorId, r: Region, e: Evaluation)
    requires Valid(db)
    ensures SubRow(RowsOf(Evaluate(db, m, e).db.statuses, m), RowsOf(db.statuses, m), r)
  {
    EvaluateRows(db, m, e, m);
  }

  predicate SubRow(rows': map<Region, RegionStatus>, rows: map<Region, RegionStatus>, r: Region) {
    r in rows' ==> r in rows && rows'[r] == rows[r]
  }

  /** Without a fresh report nobody votes. */
  lemma NobodyVotes(db: Db, m: MonitorId, r: Region, now: int)
    requires Solo(db, m, r) && !Fresh(db, m, r, now)
    ensures !Majority(db, m, now)
  {
    assert Reporters(db, m, now) == {};
    assert Pending(db, m, now) == {};
    assert Electorate(db, m, now) == {} && Unhealthy(db, m, now) == {};
  }

  lemma StaleReEvaluation(db: Db, m: MonitorId, r: Region, e: Evaluation)
    requires Valid(db) && Solo(db, m, r) && !Fresh(db, m, r, e.now)
    ensures Evaluate(db, m, e).transition == Nothing <==> OpenStatus(db.incidents, m).None?
  {
    NobodyVotes(db, m, r, e.now);
    EvaluateEffect(db, m, e, m);
  }

  /** A re-evaluation reports nothing if and only if it is silent, and then it changes nothing either. */
  lemma SoloReEvaluate(db: Db, m: MonitorId, r: Region, e: Evaluation)
    requires Valid(db) && Solo(db, m, r)
    ensures var o := Evaluate(db, m, e);
      && (o.transition == Nothing <==> Silent(db, m, r, e.now))
      && (o.transition == Nothing ==> OpenStatus(o.db.incidents, m) == OpenStatus(db.incidents, m))
      && Solo(o.db, m, r)
      && (o.transition == Nothing && Settled(db, m, r) ==> Settled(o.db, m, r))
  {
    if Fresh(db, m, r, e.now) {
      SoloElectorate(db, m, r, e.now);
      SoloEvaluate(db, m, e, RowsOf(db.statuses, m)[r].status);
    } else {
      StaleReEvaluation(db, m, r, e);
    }
    EvaluateEffect(db, m, e, m);
    SoloKept(db, m, r, e);
    SoloRowKept(db, m, r, e);
  }

  /** Tables that keep the monitor's row, reports and requests stay solo. */
  lemma SoloFrame(db: Db, db': Db, m: MonitorId, r: Region)
    requires Solo(db, m, r) && db'.config == db.config
    requires RowsOf(db'.statuses, m) == RowsOf(db.statuses, m) && RowsOf(db'.requests, m) == RowsOf(db.requests, m)
    ensures Solo(db', m, r)
  {
  }

  lemma SoloHousekeeping(db: Db, s: Step, m: MonitorId, r: Region)
    requires Solo(db, m, r) && SoloStep(db, s, m, r) && IsHousekeeping(s)
    ensures Solo(Housekeeping(db, s), m, r)
  {
    assert RowsOf(Housekeeping(db, s).requests, m) == map[];
  }

  lemma HousekeepingRows(db: Db, s: Step, m: MonitorId, r: Region)
    requires IsHousekeeping(s)
    ensures SubRow(RowsOf(Housekeeping(db, s).statuses, m), RowsOf(db.statuses, m), r)
  {
  }

  predicate Concerns(s: Step, m: MonitorId) { (s.Recheck? || s.ReEvaluate?) && s.m == m }

  lemma SoloOtherCheck(db: Db, k: MonitorId, c: Check, m: MonitorId, r: Region)
    requires Valid(db) && Solo(db, m, r) && k != m
    ensures var db' := RecordCheck(db, k, c).db;
      Solo(db', m, r) && RowsOf(db'.statuses, m) == RowsOf(db.statuses, m)
  {
    if k in db.config.monitors {
      var db1 := Recorded(db, k, c);
      RecordedEffect(db, k, c);
      SoloFrame(db, db1, m, r);
      SoloOtherEvaluation(db1, k, EvaluationOf(c), m, r);
    }
  }

  lemma SoloOtherEvaluation(db: Db, k: MonitorId, e: Evaluation, m: MonitorId, r: Region)
    requires Valid(db) && Solo(db, m, r) && k != m
    ensures var db' := Evaluate(db, k, e).db;
      Solo(db', m, r) && RowsOf(db'.statuses, m) == RowsOf(db.statuses, m)
  {
    EvaluateRows(db, k, e, m);
    SoloFrame(db, Evaluate(db, k, e).db, m, r);
  }

  /** No other step moves the monitor's open severity or creates a request for it. */
  lemma SoloOther(db: Db, s: Step, m: MonitorId, r: Region)
    requires Valid(db) && Solo(db, m, r) && SoloStep(db, s, m, r) && !Concerns(s, m)
    ensures Solo(Next(db, s), m, r)
    ensures SubRow(RowsOf(Next(db, s).statuses, m), RowsOf(db.statuses, m), r)
  {
    match s
    case Recheck(k, check) => SoloOtherCheck(db, k, check, m, r);
    case ReEvaluate(k, now, suppressed) => SoloOtherEvaluation(db, k, SweepEvaluation(now, suppressed), m, r);
    case DeleteMonitor(k) =>
    case Repeat(i, now) =>
    case _ =>
      SoloHousekeeping(db, s, m, r);
      HousekeepingRows(db, s, m, r);
  }

  /** Every step of a solo run, as the tracker sees it. */
  lemma SoloStepEffect(db: Db, s: Step, m: MonitorId, r: Region)
    requires Valid(db) && Solo(db, m, r) && SoloStep(db, s, m, r)
    ensures var db1 := Next(db, s); var before := OpenStatus(db.incidents, m);
      var after := if s.Recheck? && s.m == m then Track(before, s.check.status) else before;
      && Valid(db1) && Solo(db1, m, r) && OpenStatus(db1.incidents, m) == after
      && Reported(db, s, m) == Change(before, after)
      && (Settled(db, m, r) || (s.Recheck? && s.m == m) ==> Settled(db1, m, r))
  {
    StepEffect(db, s, m);
    if s.Recheck? && s.m == m {
      SoloCheck(db, m, r, s.check);
    } else if s.ReEvaluate? && s.m == m {
      SoloReEvaluate(db, m, r, SweepEvaluation(s.now, s.suppressed));
    } else {
      SoloOther(db, s, m, r);
    }
  }

  /**
   * Over every solo run the quorum machine refines the tracker: same severity, same history, and
   * never a confirmation request; and from the first tracked check on it stays settled.
   */
  lemma {:induction false} SoloRefinesTracker(db: Db, steps: seq<Step>, m: MonitorId, r: Region)
    requires Valid(db) && Solo(db, m, r) && SoloRun(db, steps, m, r)
    ensures var open := OpenStatus(db.incidents, m);
      && OpenStatus(Run(db, steps).incidents, m) == Tracked(open, StatusesOf(steps, m))
      && Log(db, steps, m) == TrackerLog(open, StatusesOf(steps, m))
      && RowsOf(Run(db, steps).requests, m) == map[]
      && (Settled(db, m, r) || StatusesOf(steps, m) != [] ==> Settled(Run(db, steps), m, r))
    decreases |steps|
  {
    if steps != [] {
      var s, tail := steps[0], steps[1..];
      SoloStepEffect(db, s, m, r);
      SoloRefinesTracker(Next(db, s), tail, m, r);
      var statuses := StatusesOf(steps, m);
      if s.Recheck? && s.m == m {
        assert statuses[0] == s.check.status && statuses[1..] == StatusesOf(tail, m);
      } else {
        assert statuses == StatusesOf(tail, m);
      }
    }
  }
}
