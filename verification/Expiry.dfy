/**
 * Certificate and domain expiry alerts (internal/models/expiry.go and RecordExpiryCheck in
 * internal/database/bun/store_scheduler.go). Times are microseconds, the precision Postgres keeps.
 */
module Expiry {
  import opened Types

  // ---------- Days left and buckets ----------

  const DAY: int := 86_400_000_000

  /** Whole days until expiry, rounded down also once expired. */
  function DaysLeft(expiresAt: int, now: int): (days: int)
    ensures days * 86_400_000_000 <= expiresAt - now < (days + 1) * 86_400_000_000
  {
    var left := expiresAt - now;
    var days := TruncDiv(left, DAY);
    if left < 0 && left != days * DAY then days - 1 else days
  }

  /** 0 = expired, then 1 day, 3 days and the threshold; None = nothing to alert. */
  function AlertBucket(daysLeft: int, threshold: int): Option<int> {
    if daysLeft < 0 then Some(0)
    else if daysLeft <= 1 && threshold >= 1 then Some(1)
    else if daysLeft <= 3 && threshold >= 3 then Some(3)
    else if daysLeft <= threshold then Some(threshold)
    else None
  }

  /** The escalation points of a threshold. */
  predicate Point(b: int, threshold: int) {
    b == 0 || ((b == 1 || b == 3 || b == threshold) && b <= threshold)
  }

  predicate Covers(b: int, daysLeft: int) { if b == 0 then daysLeft < 0 else daysLeft <= b }

  /** The bucket is the deepest escalation point that covers the days left, if any does. */
  lemma DeepestPoint(daysLeft: int, threshold: int)
    requires threshold >= 1
    ensures forall b :: AlertBucket(daysLeft, threshold) == Some(b) <==>
      Point(b, threshold) && Covers(b, daysLeft) && forall c :: Point(c, threshold) && Covers(c, daysLeft) ==> b <= c
    ensures AlertBucket(daysLeft, threshold).None? <==> forall c :: Point(c, threshold) ==> !Covers(c, daysLeft)
  {
    forall b | Point(b, threshold) && Covers(b, daysLeft)
      ensures AlertBucket(daysLeft, threshold).Some? && AlertBucket(daysLeft, threshold).value <= b
    {
    }
    if AlertBucket(daysLeft, threshold).Some? {
      var a := AlertBucket(daysLeft, threshold).value;
      assert Point(a, threshold) && Covers(a, daysLeft);
    }
  }

  // ---------- One sub-check ----------

  datatype ExpiryStatus = ExpiryStatus(
    expiresAt: Option<int>,
    lastError: Option<string>,
    lastAlertBucket: Option<int>,
    alertedExpiresAt: Option<int>)

  datatype Check =
    | Failed(error: string)
    | Succeeded(expiresAt: int, now: int, threshold: int)

  function BucketOf(c: Check): Option<int> {
    if c.Failed? then None else AlertBucket(DaysLeft(c.expiresAt, c.now), c.threshold)
  }

  predicate Fires(st: ExpiryStatus, c: Check) {
    && c.Succeeded? && BucketOf(c).Some?
    && (st.alertedExpiresAt != Some(c.expiresAt) || st.lastAlertBucket.None?
        || BucketOf(c).value < st.lastAlertBucket.value)
  }

  function Record(st: ExpiryStatus, c: Check): ExpiryStatus {
    match c
    case Failed(error) => st.(lastError := Some(error))
    case Succeeded(date, _, _) =>
      var seen := st.(expiresAt := Some(date), lastError := None);
      if Fires(st, c) then seen.(lastAlertBucket := BucketOf(c), alertedExpiresAt := Some(date)) else seen
  }

  // ---------- Runs of checks ----------

  datatype Fire = Fire(date: int, bucket: int)

  function After(st: ExpiryStatus, cs: seq<Check>): ExpiryStatus {
    if cs == [] then st else Record(After(st, cs[..|cs| - 1]), cs[|cs| - 1])
  }

  function Fired(st: ExpiryStatus, cs: seq<Check>): seq<Fire> {
    if cs == [] then [] else
    var before, c := After(st, cs[..|cs| - 1]), cs[|cs| - 1];
    Fired(st, cs[..|cs| - 1]) + if Fires(before, c) then [Fire(c.expiresAt, BucketOf(c).value)] else []
  }

  /** What the row records about the alerts so far. */
  predicate Recorded(st: ExpiryStatus, now: ExpiryStatus, fires: seq<Fire>) {
    if fires == [] then now.lastAlertBucket == st.lastAlertBucket && now.alertedExpiresAt == st.alertedExpiresAt
    else now.lastAlertBucket == Some(fires[|fires| - 1].bucket) && now.alertedExpiresAt == Some(fires[|fires| - 1].date)
  }

  /** Neighbouring alerts for one date go deeper. */
  predicate Descending(fires: seq<Fire>) {
    forall i :: 0 < i < |fires| && fires[i - 1].date == fires[i].date ==> fires[i].bucket < fires[i - 1].bucket
  }

  /** In every run: the row remembers the last alert, and alerts for an unchanged date only go deeper. */
  lemma {:induction false} FiresDescend(st: ExpiryStatus, cs: seq<Check>)
    ensures Recorded(st, After(st, cs), Fired(st, cs)) && Descending(Fired(st, cs))
  {
    if cs != [] {
      var init, c := cs[..|cs| - 1], cs[|cs| - 1];
      FiresDescend(st, init);
      FireStep(st, After(st, init), Fired(st, init), c);
    }
  }

  lemma FireStep(st: ExpiryStatus, before: ExpiryStatus, fires: seq<Fire>, c: Check)
    requires Recorded(st, before, fires) && Descending(fires)
    ensures var fires' := fires + if Fires(before, c) then [Fire(c.expiresAt, BucketOf(c).value)] else [];
      Recorded(st, Record(before, c), fires') && Descending(fires')
  {
    if !Fires(before, c) { assert fires + [] == fires; }
  }

  lemma {:induction false} StretchDescends(fires: seq<Fire>, i: nat, j: nat)
    requires Descending(fires) && i < j < |fires|
    requires forall k :: i <= k <= j ==> fires[k].date == fires[i].date
    ensures fires[j].bucket < fires[i].bucket
    decreases j
  {
    if j > i + 1 { StretchDescends(fires, i, j - 1); }
  }

  /** A bucket is announced again for a date only after an alert for another date. */
  lemma RepeatNeedsOtherDate(st: ExpiryStatus, cs: seq<Check>, i: nat, j: nat)
    requires i < j < |Fired(st, cs)| && Fired(st, cs)[i].date == Fired(st, cs)[j].date
    requires Fired(st, cs)[i].bucket <= Fired(st, cs)[j].bucket
    ensures exists k :: i < k < j && Fired(st, cs)[k].date != Fired(st, cs)[i].date
  {
    var fires := Fired(st, cs);
    FiresDescend(st, cs);
    if forall k :: i < k < j ==> fires[k].date == fires[i].date {
      StretchDescends(fires, i, j);
    }
  }

  /** The latest alert does not cover this one: another date, or a shallower bucket. */
  predicate Uncovered(fires: seq<Fire>, f: Fire)
    requires fires != []
  {
    var last := fires[|fires| - 1];
    last.date != f.date || f.bucket < last.bucket
  }

  function FireOf(c: Check): Fire
    requires BucketOf(c).Some?
  {
    Fire(c.expiresAt, BucketOf(c).value)
  }

  /** After any run that has alerted, the next check alerts exactly when the latest alert does not cover it. */
  lemma FiresExact(st: ExpiryStatus, cs: seq<Check>, c: Check)
    requires Fired(st, cs) != []
    ensures Fires(After(st, cs), c) <==> BucketOf(c).Some? && Uncovered(Fired(st, cs), FireOf(c))
  {
    FiresDescend(st, cs);
  }

  /** An announced (date, bucket) is announced again whenever the latest alert was for another date. */
  lemma OtherDateRepeats(st: ExpiryStatus, cs: seq<Check>, c: Check, i: nat)
    requires i < |Fired(st, cs)| && BucketOf(c).Some? && FireOf(c) == Fired(st, cs)[i]
    requires Fired(st, cs)[|Fired(st, cs)| - 1].date != c.expiresAt
    ensures |Fired(st, cs + [c])| == |Fired(st, cs)| + 1
    ensures Fired(st, cs + [c])[i] == Fired(st, cs + [c])[|Fired(st, cs)|] == FireOf(c)
  {
    FiresExact(st, cs, c);
    OneMore(st, cs, c);
  }

  // ---------- Which checks of a run alert ----------

  /** From position `from` on, every check that lies in a bucket is for this date. */
  predicate OnlyDate(cs: seq<Check>, from: nat, date: int) {
    forall k :: from <= k < |cs| && BucketOf(cs[k]).Some? ==> cs[k].expiresAt == date
  }

  /** An earlier check had the same date and a bucket as deep, and no bucket of another date came since. */
  predicate CoveredBy(cs: seq<Check>, j: nat, c: Check)
    requires j < |cs| && BucketOf(c).Some?
  {
    && BucketOf(cs[j]).Some? && cs[j].expiresAt == c.expiresAt && BucketOf(cs[j]).value <= BucketOf(c).value
    && OnlyDate(cs, j + 1, c.expiresAt)
  }

  /** The row records this date with a bucket as deep. */
  predicate Holds(st: ExpiryStatus, c: Check)
    requires BucketOf(c).Some?
  {
    && st.alertedExpiresAt == Some(c.expiresAt)
    && st.lastAlertBucket.Some? && st.lastAlertBucket.value <= BucketOf(c).value
  }

  /** What the row held before the run, or one of its checks, covers c. */
  predicate Covered(st: ExpiryStatus, cs: seq<Check>, c: Check)
    requires BucketOf(c).Some?
  {
    (Holds(st, c) && OnlyDate(cs, 0, c.expiresAt)) || exists j :: 0 <= j < |cs| && CoveredBy(cs, j, c)
  }

  lemma OnlyDateSnoc(cs: seq<Check>, x: Check, from: nat, date: int)
    requires from <= |cs|
    ensures OnlyDate(cs + [x], from, date) <==> OnlyDate(cs, from, date) && (BucketOf(x).Some? ==> x.expiresAt == date)
  {
    assert (cs + [x])[|cs|] == x;
    assert forall k :: 0 <= k < |cs| ==> (cs + [x])[k] == cs[k];
  }

  /** How one more check changes what covers c. */
  lemma CoveredSnoc(st: ExpiryStatus, cs: seq<Check>, x: Check, c: Check)
    requires BucketOf(c).Some?
    ensures Covered(st, cs + [x], c) <==>
      if BucketOf(x).None? then Covered(st, cs, c)
      else x.expiresAt == c.expiresAt && (Covered(st, cs, c) || BucketOf(x).value <= BucketOf(c).value)
  {
    var n := |cs|;
    OnlyDateSnoc(cs, x, 0, c.expiresAt);
    forall j | 0 <= j < n
      ensures CoveredBy(cs + [x], j, c) <==>
              CoveredBy(cs, j, c) && (BucketOf(x).Some? ==> x.expiresAt == c.expiresAt)
    {
      OnlyDateSnoc(cs, x, j + 1, c.expiresAt);
    }
    assert CoveredBy(cs + [x], n, c) <==>
           BucketOf(x).Some? && x.expiresAt == c.expiresAt && BucketOf(x).value <= BucketOf(c).value;
    if j :| 0 <= j < n && CoveredBy(cs, j, c) { assert 0 <= j < |cs + [x]|; }
  }

  lemma HoldsStep(before: ExpiryStatus, x: Check, c: Check)
    requires BucketOf(c).Some?
    ensures Holds(Record(before, x), c) <==>
      if BucketOf(x).None? then Holds(before, c)
      else x.expiresAt == c.expiresAt && (Holds(before, c) || BucketOf(x).value <= BucketOf(c).value)
  {
  }

  /** The row after a run holds a cover of c exactly when the starting row or the checks give one. */
  lemma {:induction false} HoldsExactlyWhenCovered(st: ExpiryStatus, cs: seq<Check>, c: Check)
    requires BucketOf(c).Some?
    ensures Holds(After(st, cs), c) <==> Covered(st, cs, c)
  {
    if cs != [] {
      var init, x := cs[..|cs| - 1], cs[|cs| - 1];
      HoldsExactlyWhenCovered(st, init, c);
      assert cs == init + [x];
      CoveredSnoc(st, init, x, c);
      HoldsStep(After(st, init), x, c);
    }
  }

  /** Check i of the run lies in a bucket that neither the starting row nor an earlier check covers. */
  predicate Announces(st: ExpiryStatus, cs: seq<Check>, i: nat)
    requires i < |cs|
  {
    BucketOf(cs[i]).Some? && !Covered(st, cs[..i], cs[i])
  }

  /** Said of the checks alone: a check of a run alerts if and only if nothing before it covers it. */
  lemma AlertsExactlyUncovered(st: ExpiryStatus, cs: seq<Check>, i: nat)
    requires i < |cs|
    ensures Fires(After(st, cs[..i]), cs[i]) <==> Announces(st, cs, i)
  {
    if BucketOf(cs[i]).Some? { HoldsExactlyWhenCovered(st, cs[..i], cs[i]); }
  }

  // ---------- Once per date ----------

  predicate OncePerDate(fires: seq<Fire>) {
    forall i, j :: 0 <= i < j < |fires| ==> fires[i] != fires[j]
  }

  /** Two announcing checks of the run share date and bucket. */
  predicate Repeats(st: ExpiryStatus, cs: seq<Check>, i: nat, j: nat)
    requires i < j < |cs|
  {
    Announces(st, cs, i) && Announces(st, cs, j) && FireOf(cs[i]) == FireOf(cs[j])
  }

  lemma OncePerDateStep(fires: seq<Fire>, f: Fire)
    ensures OncePerDate(fires + [f]) <==> OncePerDate(fires) && f !in fires
  {
    if OncePerDate(fires + [f]) {
      assert forall i :: 0 <= i < |fires| ==> (fires + [f])[i] == fires[i];
      assert (fires + [f])[|fires|] == f;
    }
  }

  lemma LastCheckFires(st: ExpiryStatus, cs: seq<Check>)
    requires cs != []
    ensures var init, c := cs[..|cs| - 1], cs[|cs| - 1];
      Fired(st, cs) == if Fires(After(st, init), c) then Fired(st, init) + [FireOf(c)] else Fired(st, init)
  {
    assert Fired(st, cs[..|cs| - 1]) + [] == Fired(st, cs[..|cs| - 1]);
  }

  lemma AnnouncesPrefix(st: ExpiryStatus, cs: seq<Check>, n: nat, i: nat)
    requires i < n <= |cs|
    ensures Announces(st, cs[..n], i) <==> Announces(st, cs, i)
  {
    assert cs[..n][..i] == cs[..i];
  }

  /** The alerts of a run are those of its announcing checks. */
  lemma {:induction false} FiredMeans(st: ExpiryStatus, cs: seq<Check>, f: Fire)
    ensures f in Fired(st, cs) <==> exists i :: 0 <= i < |cs| && Announces(st, cs, i) && FireOf(cs[i]) == f
  {
    if cs != [] {
      var n := |cs| - 1;
      FiredMeans(st, cs[..n], f);
      LastCheckFires(st, cs);
      AlertsExactlyUncovered(st, cs, n);
      forall i | 0 <= i < n ensures Announces(st, cs[..n], i) <==> Announces(st, cs, i) {
        AnnouncesPrefix(st, cs, n, i);
      }
      if i :| 0 <= i < n && Announces(st, cs[..n], i) && FireOf(cs[..n][i]) == f {
        assert cs[..n][i] == cs[i];
      }
      if i :| 0 <= i < n && Announces(st, cs, i) && FireOf(cs[i]) == f {
        assert cs[..n][i] == cs[i];
      }
    }
  }

  /** Each bucket is announced at most once per date if and only if no two uncovered checks share both. */
  lemma {:induction false} OncePerDateExact(st: ExpiryStatus, cs: seq<Check>)
    ensures OncePerDate(Fired(st, cs)) <==> forall i, j :: 0 <= i < j < |cs| ==> !Repeats(st, cs, i, j)
  {
    if cs != [] {
      var n := |cs| - 1;
      var init, c := cs[..n], cs[n];
      OncePerDateExact(st, init);
      LastCheckFires(st, cs);
      AlertsExactlyUncovered(st, cs, n);
      if Announces(st, cs, n) {
        OncePerDateStep(Fired(st, init), FireOf(c));
        FiredMeans(st, init, FireOf(c));
      }
      RepeatsPrefix(st, cs);
    }
  }

  /** The repeats of a run are those without its last check, and those with it. */
  lemma RepeatsPrefix(st: ExpiryStatus, cs: seq<Check>)
    requires cs != []
    ensures var n := |cs| - 1; var init := cs[..n];
      (forall i, j :: 0 <= i < j < |cs| ==> !Repeats(st, cs, i, j)) <==>
      && (forall i, j :: 0 <= i < j < n ==> !Repeats(st, init, i, j))
      && (Announces(st, cs, n) ==>
            !exists i :: 0 <= i < n && Announces(st, init, i) && FireOf(init[i]) == FireOf(cs[n]))
  {
    var n := |cs| - 1;
    var init := cs[..n];
    forall i | 0 <= i < n ensures Announces(st, init, i) <==> Announces(st, cs, i) {
      AnnouncesPrefix(st, cs, n, i);
    }
    forall i, j | 0 <= i < j < n ensures Repeats(st, init, i, j) <==> Repeats(st, cs, i, j) {
      assert init[i] == cs[i] && init[j] == cs[j];
    }
    forall i | 0 <= i < n
      ensures Repeats(st, cs, i, n) <==>
              Announces(st, cs, n) && Announces(st, init, i) && FireOf(init[i]) == FireOf(cs[n])
    {
      assert init[i] == cs[i];
    }
  }

  predicate SameDate(cs: seq<Check>, date: int) {
    forall i :: 0 <= i < |cs| && cs[i].Succeeded? ==> cs[i].expiresAt == date
  }

  lemma {:induction false} FiresOfOneDate(st: ExpiryStatus, cs: seq<Check>, date: int)
    requires SameDate(cs, date)
    ensures forall i :: 0 <= i < |Fired(st, cs)| ==> Fired(st, cs)[i].date == date
  {
    if cs != [] { FiresOfOneDate(st, cs[..|cs| - 1], date); }
  }

  /** While the date stays the same every alert is strictly deeper than all before it. */
  lemma SameDateDescends(st: ExpiryStatus, cs: seq<Check>, date: int, i: nat, j: nat)
    requires SameDate(cs, date) && i < j < |Fired(st, cs)|
    ensures Fired(st, cs)[j].bucket < Fired(st, cs)[i].bucket
  {
    FiresDescend(st, cs);
    FiresOfOneDate(st, cs, date);
    StretchDescends(Fired(st, cs), i, j);
  }

  /** How many alerts a date can have had once this bucket has fired. */
  function Depth(b: int): nat { if b <= 0 then 4 else if b <= 1 then 3 else if b <= 3 then 2 else 1 }

  lemma DepthGrows(b: int, c: int, threshold: int)
    requires threshold >= 1 && Point(b, threshold) && Point(c, threshold) && b < c
    ensures Depth(b) > Depth(c)
  {
  }

  predicate FixedThreshold(cs: seq<Check>, threshold: int) {
    forall i :: 0 <= i < |cs| && cs[i].Succeeded? ==> cs[i].threshold == threshold
  }

  lemma {:induction false} FiresWithinDepth(st: ExpiryStatus, cs: seq<Check>, date: int, threshold: int)
    requires SameDate(cs, date) && FixedThreshold(cs, threshold) && threshold >= 1
    ensures var fires := Fired(st, cs);
      |fires| > 0 ==> Point(fires[|fires| - 1].bucket, threshold) && |fires| <= Depth(fires[|fires| - 1].bucket)
  {
    if cs != [] {
      var init, c := cs[..|cs| - 1], cs[|cs| - 1];
      FiresWithinDepth(st, init, date, threshold);
      FiresDescend(st, init);
      FiresOfOneDate(st, init, date);
      var fires := Fired(st, init);
      if Fires(After(st, init), c) {
        DeepestPoint(DaysLeft(c.expiresAt, c.now), threshold);
        if fires != [] { DepthGrows(BucketOf(c).value, fires[|fires| - 1].bucket, threshold); }
      }
    }
  }

  /** At most four alerts per date with a fixed threshold. */
  lemma AtMostFourPerDate(st: ExpiryStatus, cs: seq<Check>, date: int, threshold: int)
    requires SameDate(cs, date) && FixedThreshold(cs, threshold) && threshold >= 1
    ensures |Fired(st, cs)| <= 4
  {
    FiresWithinDepth(st, cs, date, threshold);
  }

  /** The deepest bucket any check of the run lay in. */
  function Deepest(cs: seq<Check>): Option<int> {
    if cs == [] then None else
    var d, b := Deepest(cs[..|cs| - 1]), BucketOf(cs[|cs| - 1]);
    if b.None? then d else if d.None? || b.value < d.value then b else d
  }

  /** The lower of two buckets, where None is no bucket at all. */
  function Deeper(a: Option<int>, b: Option<int>): Option<int> {
    if a.None? then b else if b.None? || a.value <= b.value then a else b
  }

  /**
   * However checks and errors interleave, from whatever the row held, it ends up with exactly the
   * deepest of what it already recorded for the date and what the run's checks lay in.
   */
  lemma {:induction false} DeepestIsRecorded(st: ExpiryStatus, cs: seq<Check>, date: int)
    requires SameDate(cs, date)
    ensures var now, deepest := After(st, cs), Deepest(cs);
      var start := if st.alertedExpiresAt == Some(date) then st.lastAlertBucket else None;
      if deepest.None? then now.lastAlertBucket == st.lastAlertBucket && now.alertedExpiresAt == st.alertedExpiresAt
      else now.lastAlertBucket == Deeper(start, deepest) && now.alertedExpiresAt == Some(date)
  {
    if cs != [] { DeepestIsRecorded(st, cs[..|cs| - 1], date); }
  }

  /** Dropping the failed checks of a run changes neither the alerts nor what the row records. */
  lemma {:induction false} ErrorsChangeNoAlert(st: ExpiryStatus, cs: seq<Check>)
    ensures Fired(st, Successes(cs)) == Fired(st, cs)
    ensures After(st, Successes(cs)).(lastError := None) == After(st, cs).(lastError := None)
  {
    if cs != [] {
      var init, c := cs[..|cs| - 1], cs[|cs| - 1];
      ErrorsChangeNoAlert(st, init);
      var kept := Successes(cs);
      if c.Succeeded? {
        assert kept[..|kept| - 1] == Successes(init);
      } else {
        assert kept == Successes(init);
      }
    }
  }

  /** The row shows the outcome of the latest check and the date of the latest successful one. */
  lemma {:induction false} LatestIsShown(st: ExpiryStatus, cs: seq<Check>)
    requires cs != []
    ensures var now, kept := After(st, cs), Successes(cs);
      && now.lastError == (if cs[|cs| - 1].Failed? then Some(cs[|cs| - 1].error) else None)
      && now.expiresAt == (if kept == [] then st.expiresAt else Some(kept[|kept| - 1].expiresAt))
  {
    if |cs| > 1 { LatestIsShown(st, cs[..|cs| - 1]); }
  }

  function Successes(cs: seq<Check>): (kept: seq<Check>)
    ensures forall i :: 0 <= i < |kept| ==> kept[i].Succeeded?
  {
    if cs == [] then [] else
    Successes(cs[..|cs| - 1]) + if cs[|cs| - 1].Succeeded? then [cs[|cs| - 1]] else []
  }

  lemma OneMore(st: ExpiryStatus, cs: seq<Check>, c: Check)
    ensures After(st, cs + [c]) == Record(After(st, cs), c)
    ensures Fired(st, cs + [c]) == Fired(st, cs) + if Fires(After(st, cs), c) then [FireOf(c)] else []
  {
    assert (cs + [c])[..|cs|] == cs;
  }

  /** Two outcomes reported in turn, as by two servers with different certificates, n reports ending with a. */
  function Alternation(a: Check, b: Check, n: nat): seq<Check>
    decreases n
  {
    if n == 0 then [] else Alternation(b, a, n - 1) + [a]
  }

  lemma OtherDateFires(before: ExpiryStatus, c: Check)
    requires BucketOf(c).Some?
    ensures before.alertedExpiresAt != Some(c.expiresAt) ==> Fires(before, c)
    ensures Record(before, c).alertedExpiresAt == Some(c.expiresAt)
  {
  }

  /** From any row, with any two dates in any buckets, every report after the first alerts again. */
  lemma {:induction false} AlternatingDatesRepeat(st: ExpiryStatus, a: Check, b: Check, n: nat)
    requires BucketOf(a).Some? && BucketOf(b).Some? && a.expiresAt != b.expiresAt && n > 0
    ensures After(st, Alternation(a, b, n)).alertedExpiresAt == Some(a.expiresAt)
    ensures n > 1 ==> Fires(After(st, Alternation(b, a, n - 1)), a)
    ensures |Fired(st, Alternation(a, b, n))| >= n - 1
    decreases n
  {
    if n > 1 { AlternatingDatesRepeat(st, b, a, n - 1); }
    OneMore(st, Alternation(b, a, n - 1), a);
    OtherDateFires(After(st, Alternation(b, a, n - 1)), a);
  }

  // ---------- The table ----------

  datatype Kind = CERT | DOMAIN

  datatype Claim = Claim(monitor: MonitorId, kind: Kind, threshold: int)

  datatype Outcome = Done | NoRow | NoDate

  class ExpiryStore {
    var statuses: map<(MonitorId, Kind), ExpiryStatus>
    var enqueued: seq<(Claim, Fire)>          // calls of enqueue_monitor_alerts

    /** RecordExpiryCheck. A missing row is an error for a result, and nothing to update for a failure. */
    method RecordExpiryCheck(claim: Claim, expiresAt: Option<int>, checkErr: string, now: int, inMaintenance: bool)
      returns (outcome: Outcome)
      modifies this
      ensures var key := (claim.monitor, claim.kind);
        && statuses.Keys == old(statuses).Keys
        && (forall k :: k in statuses && k != key ==> statuses[k] == old(statuses)[k])
        && (outcome == NoDate <==> checkErr == "" && expiresAt.None?)
        && (outcome == NoRow <==> checkErr == "" && expiresAt.Some? && key !in statuses)
        && (outcome != Done ==> statuses == old(statuses) && enqueued == old(enqueued))
        && (checkErr != "" ==> enqueued == old(enqueued))
        && (checkErr != "" && key in statuses ==> statuses[key] == Record(old(statuses)[key], Failed(checkErr)))
        && (outcome == Done && checkErr == "" ==>
              var c := Succeeded(expiresAt.value, now, claim.threshold);
              && statuses[key] == Record(old(statuses)[key], c)
              && enqueued == old(enqueued) + if Fires(old(statuses)[key], c) && !inMaintenance
                                             then [(claim, Fire(c.expiresAt, BucketOf(c).value))] else [])
    {
      var key := (claim.monitor, claim.kind);
      if checkErr != "" {
        if key in statuses {
          statuses := statuses[key := statuses[key].(lastError := Some(checkErr))];
        }
        return Done;
      }
      if expiresAt.None? { return NoDate; }
      if key !in statuses { return NoRow; }
      var st, date := statuses[key], expiresAt.value;

      var daysLeft := DaysLeft(date, now);
      var bucket := AlertBucket(daysLeft, claim.threshold);
      var shouldAlert := bucket.Some? &&
        (st.alertedExpiresAt.None? || st.alertedExpiresAt.value != date || st.lastAlertBucket.None?
         || bucket.value < st.lastAlertBucket.value);

      var upd := st.(expiresAt := Some(date), lastError := None);
      if shouldAlert {
        upd := upd.(lastAlertBucket := bucket, alertedExpiresAt := Some(date));
      }
      statuses := statuses[key := upd];
      outcome := Done;
      if !shouldAlert || inMaintenance { return; }
      enqueued := enqueued + [(claim, Fire(date, bucket.value))];
    }
  }
}
