/**
 * The distributed scheduler (internal/scheduler/distributed.go): one job per owned monitor,
 * reconciled on membership events and on every tick.
 */
module Scheduler {
  import opened Types
  import opened Partition

  datatype MonitorRow = MonitorRow(id: MonitorId, enabled: bool, regions: seq<Region>, interval: int, updatedAt: int)

  /** A running check loop; the serial tells restarts of the same monitor apart. */
  datatype Job = Job(serial: nat, monitor: MonitorId, updatedAt: int, interval: int)

  predicate Current(j: Job, m: MonitorRow) {
    j.monitor == m.id && j.updatedAt == m.updatedAt && j.interval == m.interval
  }

  // ---------- The monitors table ----------

  predicate UniqueIds(rows: seq<MonitorRow>) {
    forall i, j :: 0 <= i < j < |rows| ==> rows[i].id != rows[j].id
  }

  /** A WHERE clause. */
  function Where(rows: seq<MonitorRow>, p: MonitorRow -> bool): (out: seq<MonitorRow>)
    ensures forall m :: m in out <==> m in rows && p(m)
  {
    if rows == [] then [] else
    var init, last := rows[..|rows| - 1], rows[|rows| - 1];
    assert rows == init + [last];
    Where(init, p) + (if p(last) then [last] else [])
  }

  lemma {:induction false} WhereKeepsIdsUnique(rows: seq<MonitorRow>, p: MonitorRow -> bool)
    requires UniqueIds(rows)
    ensures UniqueIds(Where(rows, p))
  {
    if rows != [] {
      var init, last := rows[..|rows| - 1], rows[|rows| - 1];
      WhereKeepsIdsUnique(init, p);
      var kept := Where(init, p);
      forall i | 0 <= i < |kept| ensures kept[i].id != last.id {
        assert kept[i] in init;
      }
    }
  }

  /** The ids an instance has to run: active in its region and hashed to a partition it owns. */
  ghost predicate Wanted(store: seq<MonitorRow>, region: Region, owned: set<int>, hash: string -> int, count: nat,
                         id: MonitorId)
    requires count > 0
  {
    (exists m :: m in store && m.id == id && m.enabled && region in m.regions) && GoPartition(hash(id), count) in owned
  }

  /** Instances that applied the same membership want every active monitor exactly once between them. */
  lemma ExactlyOneOwner(store: seq<MonitorRow>, region: Region, instances: seq<string>, hash: string -> int, count: nat,
                        m: MonitorRow)
    requires Distinct(instances) && instances != [] && 0 < count <= 0x4000_0000 && IsInt32(hash(m.id))
    requires m in store && m.enabled && region in m.regions
    ensures exists a :: a in instances && Wanted(store, region, Owned(instances, a, count), hash, count, m.id)
    ensures forall a, b | && Wanted(store, region, Owned(instances, a, count), hash, count, m.id)
                          && Wanted(store, region, Owned(instances, b, count), hash, count, m.id) :: a == b
  {
    var p := GoPartition(hash(m.id), count);
    PartitionsAgree(hash(m.id), count);
    OwnershipPartitions(instances, count, p);
    var a :| a in instances && p in Owned(instances, a, count);
    assert Wanted(store, region, Owned(instances, a, count), hash, count, m.id);
  }

  lemma {:induction false} IncreasingClimbs(xs: seq<int>, i: nat)
    requires Increasing(xs) && i < |xs| && xs[0] >= 0
    ensures xs[i] >= i
  {
    if i > 0 { IncreasingClimbs(xs, i - 1); }
  }

  lemma {:induction false} IncreasingFits(xs: seq<int>, n: nat, i: nat)
    requires Increasing(xs) && i < |xs| && xs[|xs| - 1] < n
    ensures xs[i] <= n - |xs| + i
    decreases |xs| - i
  {
    if i < |xs| - 1 { IncreasingFits(xs, n, i + 1); }
  }

  /** Owning as many partitions as there are is owning all of them. */
  lemma FullRange(xs: seq<int>, n: nat)
    requires Increasing(xs) && (forall i :: 0 <= i < |xs| ==> 0 <= xs[i] < n) && |xs| == n
    ensures forall x :: 0 <= x < n ==> x in xs
  {
    forall x | 0 <= x < n ensures x in xs {
      IncreasingClimbs(xs, x);
      IncreasingFits(xs, n, x);
    }
  }

  /** What one round of the loop selects on. A failed query or reconcile is `None`. */
  datatype Event =
    | Membership(instances: seq<string>, store: Option<seq<MonitorRow>>)
    | Tick(reconciled: Option<seq<string>>, store: Option<seq<MonitorRow>>)

  predicate Tables(e: Event) { e.store.Some? ==> UniqueIds(e.store.value) }

  /** The membership a round applies, if any. */
  function Applied(e: Event): Option<seq<string>> {
    if e.Membership? then Some(e.instances) else e.reconciled
  }

  /** Ownership after a run: that of the last membership applied. */
  function OwnedAfter(events: seq<Event>, id: string, count: nat): set<int> {
    if events == [] then {} else
    var last := Applied(events[|events| - 1]);
    if last.Some? then Owned(last.value, id, count) else OwnedAfter(events[..|events| - 1], id, count)
  }

  /** The jobs map holds exactly the wanted monitors, each with its current row. */
  ghost predicate Synced(jobs: map<MonitorId, Job>, store: seq<MonitorRow>, region: Region, owned: set<int>,
                         hash: string -> int, count: nat)
    requires count > 0
  {
    && (forall id :: id in jobs <==> Wanted(store, region, owned, hash, count, id))
    && (forall m :: m in store && m.id in jobs ==> Current(jobs[m.id], m))
  }

  /** Between them, instances that applied one membership and synced run each active monitor exactly once. */
  lemma FleetRunsEachMonitorOnce(store: seq<MonitorRow>, region: Region, instances: seq<string>, hash: string -> int,
                                 count: nat, fleet: map<string, map<MonitorId, Job>>, m: MonitorRow)
    requires Distinct(instances) && instances != [] && 0 < count <= 0x4000_0000 && IsInt32(hash(m.id))
    requires fleet.Keys == (set a | a in instances)
    requires forall a :: a in fleet ==> Synced(fleet[a], store, region, Owned(instances, a, count), hash, count)
    requires m in store && UniqueIds(store)
    ensures (m.enabled && region in m.regions) <==> exists a :: a in fleet && m.id in fleet[a]
    ensures forall a, b | a in fleet && b in fleet && m.id in fleet[a] && m.id in fleet[b] :: a == b
    ensures forall a :: a in fleet && m.id in fleet[a] ==>
      fleet[a][m.id].updatedAt == m.updatedAt && fleet[a][m.id].interval == m.interval
  {
    if m.enabled && region in m.regions {
      ExactlyOneOwner(store, region, instances, hash, count, m);
      var a :| a in instances && Wanted(store, region, Owned(instances, a, count), hash, count, m.id);
      assert a in fleet && m.id in fleet[a];
    }
  }

  lemma DropOne(jobs: map<MonitorId, Job>, ids: set<MonitorId>, todo: set<MonitorId>, id: MonitorId)
    requires id in todo && todo <= ids
    ensures jobs - (ids - todo) - {id} == jobs - (ids - (todo - {id}))
  {
    assert ids - (todo - {id}) == (ids - todo) + {id};
  }

  class DistributedScheduler {
    const region: Region
    const partitions: PartitionManager
    var jobs: map<MonitorId, Job>
    var running: set<Job>                // jobs whose context has not been cancelled
    var nextSerial: nat

    /** Uncancelled jobs are exactly the map's values, one per monitor. */
    ghost predicate JobsValid()
      reads this
    {
      && (forall k :: k in jobs ==> jobs[k].monitor == k && jobs[k] in running)
      && (forall j :: j in running ==> j.serial < nextSerial && j.monitor in jobs && jobs[j.monitor] == j)
    }

    /** The same while the map still holds the cancelled job of one monitor. */
    ghost predicate JobsValidBut(id: MonitorId)
      reads this
    {
      && (forall k :: k in jobs && k != id ==> jobs[k].monitor == k && jobs[k] in running)
      && (forall j :: j in running ==>
            j.serial < nextSerial && j.monitor != id && j.monitor in jobs && jobs[j.monitor] == j)
    }

    ghost predicate Config()
      reads partitions
    {
      && partitions.Valid() && partitions.partitionCount <= 0x4000_0000
      && forall id :: IsInt32(partitions.hash(id))
    }

    /** Every job runs in a partition this instance owns. */
    ghost predicate Valid()
      reads this, partitions
    {
      Config() && JobsValid() && forall k :: k in jobs ==> partitions.IsMonitorOwned(k)
    }

    constructor (region: Region, partitions: PartitionManager)
      requires partitions.Valid() && partitions.partitionCount <= 0x4000_0000
      requires forall id :: IsInt32(partitions.hash(id))
      ensures Valid() && jobs == map[] && running == {} && this.partitions == partitions && this.region == region
    {
      this.region, this.partitions := region, partitions;
      jobs, running, nextSerial := map[], {}, 0;
    }

    method CancelJob(id: MonitorId)
      requires JobsValid() && id in jobs
      modifies this`jobs, this`running
      ensures JobsValid() && jobs == old(jobs) - {id}
    {
      running := running - {jobs[id]};
      jobs := jobs - {id};
    }

    /** Cancel and drop every job whose key is in the set. */
    method CancelJobs(ids: set<MonitorId>)
      requires JobsValid()
      modifies this`jobs, this`running
      ensures JobsValid() && jobs == old(jobs) - ids
    {
      var todo := jobs.Keys * ids;
      while todo != {}
        invariant JobsValid() && todo <= ids && todo <= jobs.Keys
        invariant jobs == old(jobs) - (ids - todo)
        decreases |todo|
      {
        var id :| id in todo;
        DropOne(old(jobs), ids, todo, id);
        CancelJob(id);
        todo := todo - {id};
      }
      assert ids - todo == ids;
    }

    method StopJobsForPartitions(lost: seq<int>)
      requires partitions.partitionCount > 0 && JobsValid()
      modifies this`jobs, this`running
      ensures JobsValid() && jobs.Keys <= old(jobs).Keys
      ensures forall k :: k in old(jobs) ==> (k in jobs <==> partitions.CalculatePartition(k) !in lost)
      ensures forall k :: k in jobs ==> jobs[k] == old(jobs)[k]
    {
      var doomed := set k | k in jobs && partitions.CalculatePartition(k) in lost;
      CancelJobs(doomed);
    }

    /** applyOwnership: exactly the jobs of partitions still owned survive, untouched. */
    method ApplyOwnership(instances: seq<string>)
      requires Valid()
      modifies this`jobs, this`running, partitions
      ensures Valid()
      ensures partitions.ownedPartitions == Owned(instances, partitions.instanceID, partitions.partitionCount)
      ensures jobs.Keys <= old(jobs).Keys
      ensures forall k :: k in old(jobs) ==> (k in jobs <==> partitions.IsMonitorOwned(k))
      ensures forall k :: k in jobs ==> jobs[k] == old(jobs)[k]
    {
      ghost var before := partitions.ownedPartitions;
      var gained, lost := partitions.RecalculateOwnership(instances);
      ghost var after := partitions.ownedPartitions;
      assert forall p :: p in before ==> (p in after <==> p !in lost);
      if |lost| == 0 && |gained| == 0 { return; }
      if |lost| > 0 {
        StopJobsForPartitions(lost);
      }
    }

    /** fetchOwnedMonitors: three queries, one answer. The store is `None` when a query fails. */
    method FetchOwnedMonitors(store: Option<seq<MonitorRow>>) returns (rows: Option<seq<MonitorRow>>)
      requires Config() && (store.Some? ==> UniqueIds(store.value))
      ensures rows.None? <==> store.None? && exists p :: p in partitions.ownedPartitions
      ensures rows.Some? ==> UniqueIds(rows.value)
      ensures rows.Some? && store.None? ==> rows.value == []
      ensures rows.Some? && store.Some? ==> forall m :: m in rows.value <==>
        m in store.value && m.enabled && region in m.regions && partitions.IsMonitorOwned(m.id)
    {
      var owned := Sorted(partitions.ownedPartitions, partitions.partitionCount);
      if |owned| == 0 { return Some([]); }
      assert owned[0] in partitions.ownedPartitions;
      if store.None? { return None; }
      var count, hash, here := partitions.partitionCount, partitions.hash, region;
      forall id
        ensures 0 <= GoPartition(hash(id), count) < count
        ensures SqlPartition(hash(id), count) == Some(GoPartition(hash(id), count))
      {
        PartitionsAgree(hash(id), count);
      }
      if |owned| == count {
        FullRange(owned, count);
        var active := (m: MonitorRow) => m.enabled && here in m.regions;
        WhereKeepsIdsUnique(store.value, active);
        rows := Some(Where(store.value, active));
      } else {
        var ownedHere := (m: MonitorRow) => m.enabled && here in m.regions &&
          SqlPartition(hash(m.id), count).Some? && SqlPartition(hash(m.id), count).value in owned;
        WhereKeepsIdsUnique(store.value, ownedHere);
        rows := Some(Where(store.value, ownedHere));
      }
    }

    method StartMonitorJob(m: MonitorRow)
      requires JobsValidBut(m.id)
      modifies this`jobs, this`running, this`nextSerial
      ensures JobsValid() && m.id in jobs && Current(jobs[m.id], m) && jobs == old(jobs)[m.id := jobs[m.id]]
      ensures nextSerial >= old(nextSerial) && jobs[m.id].serial >= old(nextSerial)
    {
      var j := Job(nextSerial, m.id, m.updatedAt, m.interval);
      jobs := jobs[m.id := j];
      running := running + {j};
      nextSerial := nextSerial + 1;
    }

    /** Keep a job whose row is unchanged; otherwise cancel it and start a new one. */
    method ReconcileJob(m: MonitorRow)
      requires JobsValid()
      modifies this`jobs, this`running, this`nextSerial
      ensures JobsValid() && m.id in jobs && Current(jobs[m.id], m) && jobs == old(jobs)[m.id := jobs[m.id]]
      ensures nextSerial >= old(nextSerial)
      ensures jobs[m.id].updatedAt == m.updatedAt && jobs[m.id].interval == m.interval
      ensures if m.id in old(jobs) && old(jobs)[m.id].updatedAt == m.updatedAt && old(jobs)[m.id].interval == m.interval
              then jobs == old(jobs) && running == old(running)
              else jobs[m.id] !in old(running)
    {
      if m.id in jobs {
        var j := jobs[m.id];
        if j.updatedAt == m.updatedAt && j.interval == m.interval { return; }
        running := running - {j};
      }
      StartMonitorJob(m);
    }

    /** Progress of a sync over the fetched rows. */
    ghost predicate Reconciled(rows: seq<MonitorRow>, active: set<MonitorId>, before: map<MonitorId, Job>)
      reads this
    {
      && JobsValid() && jobs.Keys == before.Keys + active
      && (forall m :: m in rows ==> m.id in active && m.id in jobs && Current(jobs[m.id], m))
      && (forall m :: m in rows && m.id in before && Current(before[m.id], m) ==> jobs[m.id] == before[m.id])
      && (forall id :: id in active ==> exists m :: m in rows && m.id == id)
      && (forall id :: id in before && id !in active ==> jobs[id] == before[id])
    }

    method ReconcileAll(rows: seq<MonitorRow>) returns (active: set<MonitorId>)
      requires JobsValid() && partitions.partitionCount > 0
      requires UniqueIds(rows) && forall m :: m in rows ==> partitions.IsMonitorOwned(m.id)
      modifies this`jobs, this`running, this`nextSerial
      ensures Reconciled(rows, active, old(jobs))
    {
      active := {};
      for i := 0 to |rows|
        invariant Reconciled(rows[..i], active, old(jobs))
        invariant forall k :: i <= k < |rows| ==> rows[k].id !in active
      {
        var m := rows[i];
        if !partitions.IsMonitorOwned(m.id) { continue; }
        active := ReconcileNext(rows, i, active, old(jobs));
      }
      assert rows[..|rows|] == rows;
    }

    method ReconcileNext(rows: seq<MonitorRow>, i: nat, active: set<MonitorId>, ghost before: map<MonitorId, Job>)
      returns (active': set<MonitorId>)
      requires i < |rows| && UniqueIds(rows) && rows[i].id !in active
      requires Reconciled(rows[..i], active, before)
      modifies this`jobs, this`running, this`nextSerial
      ensures Reconciled(rows[..i + 1], active', before) && active' == active + {rows[i].id}
    {
      var m := rows[i];
      active' := active + {m.id};
      ReconcileJob(m);
      assert rows[..i + 1] == rows[..i] + [m];
    }

    method SyncMonitors(store: Option<seq<MonitorRow>>)
      requires Valid() && (store.Some? ==> UniqueIds(store.value))
      modifies this`jobs, this`running, this`nextSerial
      ensures Valid()
      ensures store.None? ==> jobs == old(jobs)
      ensures store.Some? ==> forall m :: m in store.value ==>
        (m.id in jobs <==>
           m.enabled && region in m.regions && partitions.CalculatePartition(m.id) in partitions.ownedPartitions)
      ensures store.Some? ==> forall m :: m in store.value && m.id in jobs ==>
        jobs[m.id].updatedAt == m.updatedAt && jobs[m.id].interval == m.interval
      ensures store.Some? ==> forall id :: id in jobs ==> exists m :: m in store.value && m.id == id
      ensures store.Some? ==>
        Synced(jobs, store.value, region, partitions.ownedPartitions, partitions.hash, partitions.partitionCount)
      ensures store.Some? ==>
        forall m | m in store.value && m.id in jobs && m.id in old(jobs) && Current(old(jobs)[m.id], m) ::
          jobs[m.id] == old(jobs)[m.id]
    {
      var fetched := FetchOwnedMonitors(store);
      if fetched.None? { return; }
      var rows := fetched.value;
      var active := ReconcileAll(rows);
      CancelJobs(jobs.Keys - active);
    }

    /** One round of the loop. */
    method Step(e: Event)
      requires Valid() && Tables(e)
      modifies this`jobs, this`running, this`nextSerial, partitions
      ensures Valid()
      ensures Applied(e).Some? ==>
        partitions.ownedPartitions == Owned(Applied(e).value, partitions.instanceID, partitions.partitionCount)
      ensures Applied(e).None? ==> partitions.ownedPartitions == old(partitions.ownedPartitions)
      ensures e.store.Some? ==>
        Synced(jobs, e.store.value, region, partitions.ownedPartitions, partitions.hash, partitions.partitionCount)
      ensures e.store.None? ==> jobs.Keys <= old(jobs).Keys && forall k :: k in old(jobs) ==>
        (k in jobs <==> partitions.IsMonitorOwned(k)) && (k in jobs ==> jobs[k] == old(jobs)[k])
    {
      match e
      case Membership(instances, store) =>
        ApplyOwnership(instances);
        SyncMonitors(store);
      case Tick(reconciled, store) =>
        if reconciled.Some? { ApplyOwnership(reconciled.value); }
        SyncMonitors(store);
    }

    /** The loop: after every round jobs stay valid, and ownership is that of the last membership applied. */
    method Run(events: seq<Event>)
      requires Valid() && partitions.ownedPartitions == {}
      requires forall e :: e in events ==> Tables(e)
      modifies this`jobs, this`running, this`nextSerial, partitions
      ensures Valid()
      ensures partitions.ownedPartitions == OwnedAfter(events, partitions.instanceID, partitions.partitionCount)
      ensures events != [] && events[|events| - 1].store.Some? ==>
        Synced(jobs, events[|events| - 1].store.value, region, partitions.ownedPartitions, partitions.hash,
               partitions.partitionCount)
    {
      for i := 0 to |events|
        invariant Valid()
        invariant partitions.ownedPartitions ==
                  OwnedAfter(events[..i], partitions.instanceID, partitions.partitionCount)
        invariant i > 0 && events[i - 1].store.Some? ==>
          Synced(jobs, events[i - 1].store.value, region, partitions.ownedPartitions, partitions.hash,
                 partitions.partitionCount)
      {
        assert events[..i + 1][..i] == events[..i];
        Step(events[i]);
      }
      assert events[..|events|] == events;
    }

    /** Stop cancels every job. */
    method Stop()
      requires Valid()
      modifies this`jobs, this`running
      ensures Valid() && jobs == map[] && running == {}
    {
      CancelJobs(jobs.Keys);
      assert jobs == map[];
    }
  }
}
