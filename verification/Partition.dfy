/**
 * Partition ownership (internal/coordination/partition.go): hashing monitors to partitions in Go
 * and in SQL, splitting partitions over the live instances, and the deltas of ownership.
 */
module Partition {
  import opened Types

  // ---------- Hash to partition ----------

  const INT32_MAX: int := 0x7fff_ffff
  const INT32_MIN: int := -0x8000_0000

  predicate IsInt32(x: int) { INT32_MIN <= x <= INT32_MAX }

  /** Two's-complement wrap-around of 32-bit addition. */
  function WrapInt32(x: int): int { (x - INT32_MIN) % 0x1_0000_0000 + INT32_MIN }

  /** Integer remainder that truncates toward zero, as in Go and Postgres. */
  function TruncMod(a: int, b: int): int
    requires b > 0
  {
    if a >= 0 then a % b else -((-a) % b)
  }

  /** CalculatePartition on the signed 32-bit hash value: Go wraps silently. */
  function GoPartition(v: int, count: int): int
    requires count > 0
  {
    TruncMod(WrapInt32(TruncMod(v, count) + count), count)
  }

  /** PartitionSQLExpr on the same value: Postgres raises an error on overflow. */
  function SqlPartition(v: int, count: int): Option<int>
    requires count > 0
  {
    var shifted := TruncMod(v, count) + count;
    if IsInt32(shifted) then Some(TruncMod(shifted, count)) else None
  }

  /** The multiple of count that the truncating remainder takes away. */
  function TruncQuotient(v: int, count: int): int
    requires count > 0
  {
    if v >= 0 then v / count else -((-v) / count)
  }

  lemma TruncModBounds(v: int, count: int)
    requires count > 0
    ensures -count < TruncMod(v, count) < count
    ensures TruncMod(v, count) == v - TruncQuotient(v, count) * count
  {
    if v < 0 { assert -((-v) / count) * count == -(((-v) / count) * count); }
  }

  lemma ModuloUnique(v: int, k: int, count: int)
    requires count > 0 && 0 <= v + k * count < count
    ensures v + k * count == v % count
  {
    var q, r := v / count, v % count;
    assert v == q * count + r;
    assert (q + k) * count == (v + k * count) - r;
    SmallMultiple(q + k, count);
  }

  /** The only multiple of n closer to zero than n is zero. */
  lemma SmallMultiple(k: int, n: int)
    requires n > 0 && -n < k * n < n
    ensures k == 0
  {
    if k >= 1 { MultipleGrows(k, n); }
    if k <= -1 { MultipleGrows(-k, n); }
  }

  lemma MultipleGrows(k: int, n: int)
    requires n > 0 && k >= 1
    ensures k * n >= n && (-k) * n <= -n
  {
    assert k * n - n == (k - 1) * n;
    assert (-k) * n == -(k * n);
  }

  /** The remainder of a shifted truncating remainder r that lies k counts away from v. */
  lemma ShiftedRemainder(v: int, r: int, k: int, count: int)
    requires count > 0 && -count < r < count && r == v - k * count
    ensures (r + count) % count == v % count
  {
    if r >= 0 {
      ModuloUnique(r + count, -1, count);
      ModuloUnique(v, -k, count);
    } else {
      ModuloUnique(r + count, 0, count);
      assert r + count == v + (1 - k) * count;
      ModuloUnique(v, 1 - k, count);
    }
  }

  lemma ShiftedModulo(v: int, count: int)
    requires count > 0
    ensures var s := TruncMod(v, count) + count; 0 < s < 2 * count && TruncMod(s, count) == v % count
  {
    TruncModBounds(v, count);
    ShiftedRemainder(v, TruncMod(v, count), TruncQuotient(v, count), count);
  }

  /** Up to 2^30 partitions both computations are the Euclidean remainder, and never overflow. */
  lemma PartitionsAgree(v: int, count: int)
    requires IsInt32(v) && 0 < count <= 0x4000_0000
    ensures GoPartition(v, count) == v % count && SqlPartition(v, count) == Some(v % count)
    ensures 0 <= GoPartition(v, count) < count
  {
    ShiftedModulo(v, count);
    var s := TruncMod(v, count) + count;
    assert WrapInt32(s) == s;
  }

  lemma WrapsOnce(s: int)
    requires INT32_MAX < s <= INT32_MAX - INT32_MIN
    ensures WrapInt32(s) == s - 0x1_0000_0000 < 0
  {
    assert 0x1_0000_0000 <= s - INT32_MIN < 2 * 0x1_0000_0000;
  }

  /** One partition more than 2^30 and some hash wraps in Go and fails in SQL. */
  lemma PartitionOverflows(count: int)
    requires 0x4000_0000 < count <= INT32_MAX
    ensures IsInt32(count - 1) && GoPartition(count - 1, count) != (count - 1) % count
    ensures SqlPartition(count - 1, count).None?
  {
    var v, s := count - 1, 2 * count - 1;
    assert v % count == v by { ModuloUnique(v, 0, count); }
    WrapsOnce(s);
    NegativeRemainder(WrapInt32(s), count);
  }

  lemma NegativeRemainder(x: int, count: int)
    requires count > 0 && x < 0
    ensures TruncMod(x, count) <= 0
  {
  }

  /** The bound is exact. */
  lemma PartitionBoundExact(count: int)
    requires 0 < count <= INT32_MAX
    ensures (forall v :: IsInt32(v) ==> GoPartition(v, count) == v % count && SqlPartition(v, count).Some?) <==>
            count <= 0x4000_0000
  {
    if count <= 0x4000_0000 {
      forall v | IsInt32(v) ensures GoPartition(v, count) == v % count && SqlPartition(v, count).Some? {
        PartitionsAgree(v, count);
      }
    } else {
      PartitionOverflows(count);
    }
  }

  // ---------- Ownership ----------

  /** First position of the id in the membership list, or -1. */
  function IndexOf(instances: seq<string>, id: string): int {
    if instances == [] then -1
    else if instances[0] == id then 0
    else var i := IndexOf(instances[1..], id); if i < 0 then -1 else i + 1
  }

  lemma {:induction false} IndexOfMeans(instances: seq<string>, id: string)
    ensures var i := IndexOf(instances, id);
      && -1 <= i < |instances|
      && (i == -1 <==> id !in instances)
      && (i >= 0 ==> instances[i] == id && forall j :: 0 <= j < i ==> instances[j] != id)
  {
    if instances != [] {
      IndexOfMeans(instances[1..], id);
      assert id in instances <==> id == instances[0] || id in instances[1..];
      var i := IndexOf(instances, id);
      if i > 0 {
        forall j | 0 <= j < i ensures instances[j] != id {
          if j > 0 { assert instances[j] == instances[1..][j - 1]; }
        }
      }
    }
  }

  /** The partitions an instance owns under a membership list. */
  function Owned(instances: seq<string>, id: string, count: nat): set<int> {
    var i := IndexOf(instances, id);
    set p | 0 <= p < count && |instances| > 0 && p % |instances| == i
  }

  predicate Distinct(instances: seq<string>) {
    forall i, j :: 0 <= i < j < |instances| ==> instances[i] != instances[j]
  }

  /** Every partition is owned by exactly one live instance. */
  lemma OwnershipPartitions(instances: seq<string>, count: nat, p: int)
    requires Distinct(instances) && instances != [] && 0 <= p < count
    ensures exists a :: a in instances && p in Owned(instances, a, count)
    ensures forall a, b :: p in Owned(instances, a, count) && p in Owned(instances, b, count) ==> a == b
  {
    var k := p % |instances|;
    var a := instances[k];
    IndexOfMeans(instances, a);
    assert IndexOf(instances, a) == k;
    assert p in Owned(instances, a, count);
    forall x, y | p in Owned(instances, x, count) && p in Owned(instances, y, count)
      ensures x == y
    {
      IndexOfMeans(instances, x);
      IndexOfMeans(instances, y);
    }
  }

  /** Partition p belongs to the instance at position p modulo the number of instances. */
  lemma OwnedExact(instances: seq<string>, id: string, count: nat, p: int)
    requires Distinct(instances)
    ensures p in Owned(instances, id, count) <==>
            0 <= p < count && instances != [] && instances[p % |instances|] == id
  {
    IndexOfMeans(instances, id);
  }

  /** An instance missing from the list owns nothing. */
  lemma AbsentOwnsNothing(instances: seq<string>, id: string, count: nat)
    requires id !in instances
    ensures Owned(instances, id, count) == {}
  {
    IndexOfMeans(instances, id);
  }

  // ---------- Balance ----------

  function Residues(count: nat, n: nat, i: int): set<int>
    requires n > 0
  {
    set p | 0 <= p < count && p % n == i
  }

  lemma ResiduesGrow(c: nat, n: nat, i: nat)
    requires i < n
    ensures |Residues(c + 1, n, i)| == |Residues(c, n, i)| + if c % n == i then 1 else 0
  {
    assert Residues(c + 1, n, i) == Residues(c, n, i) + if c % n == i then {c} else {};
  }

  lemma {:induction false} ResiduesSize(count: nat, n: nat, i: nat)
    requires i < n
    ensures |Residues(count, n, i)| == count / n + (if i < count % n then 1 else 0)
  {
    if count == 0 {
      assert Residues(count, n, i) == {};
    } else {
      ResiduesSize(count - 1, n, i);
      ResiduesGrow(count - 1, n, i);
      StepDiv(count - 1, n);
    }
  }

  lemma StepDiv(c: nat, n: nat)
    requires n > 0
    ensures if c % n + 1 == n then (c + 1) / n == c / n + 1 && (c + 1) % n == 0
            else (c + 1) / n == c / n && (c + 1) % n == c % n + 1
  {
    var q, r := c / n, c % n;
    assert c == q * n + r;
    if r + 1 == n {
      assert c + 1 == (q + 1) * n;
      DivModUnique(c + 1, n, q + 1, 0);
    } else {
      DivModUnique(c + 1, n, q, r + 1);
    }
  }

  lemma DivModUnique(x: int, n: nat, q: int, r: int)
    requires n > 0 && x == q * n + r && 0 <= r < n
    ensures x / n == q && x % n == r
  {
    var q', r' := x / n, x % n;
    assert x == q' * n + r';
    assert (q - q') * n == q * n - q' * n == r' - r;
    SmallMultiple(q - q', n);
  }

  /** Live instances own numbers of partitions that differ by at most one. */
  lemma OwnershipBalanced(instances: seq<string>, count: nat, a: string, b: string)
    requires a in instances && b in instances
    ensures |Owned(instances, a, count)| <= |Owned(instances, b, count)| + 1
  {
    IndexOfMeans(instances, a);
    IndexOfMeans(instances, b);
    var n := |instances|;
    var i, j := IndexOf(instances, a), IndexOf(instances, b);
    assert Owned(instances, a, count) == Residues(count, n, i);
    assert Owned(instances, b, count) == Residues(count, n, j);
    ResiduesSize(count, n, i);
    ResiduesSize(count, n, j);
  }

  // ---------- Deltas ----------

  datatype Delta = Delta(gained: set<int>, lost: set<int>)

  function DeltaOf(before: set<int>, after: set<int>): Delta { Delta(after - before, before - after) }

  /** The deltas an instance emits while it applies a sequence of memberships. */
  function Deltas(before: set<int>, run: seq<seq<string>>, id: string, count: nat): seq<Delta>
    decreases |run|
  {
    if run == [] then [] else
    var after := Owned(run[0], id, count);
    [DeltaOf(before, after)] + Deltas(after, run[1..], id, count)
  }

  function Replay(owned: set<int>, deltas: seq<Delta>): set<int>
    decreases |deltas|
  {
    if deltas == [] then owned else Replay(owned - deltas[0].lost + deltas[0].gained, deltas[1..])
  }

  /** Replaying all deltas rebuilds the ownership through any run. */
  lemma {:induction false} DeltasRebuildOwnership(before: set<int>, run: seq<seq<string>>, id: string, count: nat)
    ensures Replay(before, Deltas(before, run, id, count)) ==
            if run == [] then before else Owned(run[|run| - 1], id, count)
    decreases |run|
  {
    if run != [] {
      var after := Owned(run[0], id, count);
      var deltas := Deltas(before, run, id, count);
      assert before - deltas[0].lost + deltas[0].gained == after;
      assert deltas[1..] == Deltas(after, run[1..], id, count);
      DeltasRebuildOwnership(after, run[1..], id, count);
    }
  }

  // ---------- PartitionManager ----------

  predicate Increasing(xs: seq<int>) { forall i, j :: 0 <= i < j < |xs| ==> xs[i] < xs[j] }

  /** The partitions of a map's key set after sort.Ints. */
  method Sorted(s: set<int>, bound: nat) returns (xs: seq<int>)
    requires forall x :: x in s ==> 0 <= x < bound
    ensures Increasing(xs) && forall x :: x in xs <==> x in s
    ensures forall i :: 0 <= i < |xs| ==> xs[i] in s
  {
    xs := [];
    for p := 0 to bound
      invariant Increasing(xs) && forall i :: 0 <= i < |xs| ==> xs[i] < p
      invariant forall x :: x in xs <==> x in s && x < p
      invariant forall i :: 0 <= i < |xs| ==> xs[i] in s
    {
      if p in s { xs := xs + [p]; }
    }
  }

  class PartitionManager {
    const partitionCount: nat
    const instanceID: string
    const hash: string -> int          // first four md5 bytes as a signed 32-bit integer
    var ownedPartitions: set<int>
    var instanceIndex: int
    var instanceCount: nat

    ghost predicate Valid()
      reads this
    {
      0 < partitionCount <= INT32_MAX && forall p :: p in ownedPartitions ==> 0 <= p < partitionCount
    }

    constructor (count: int, instanceID: string, hash: string -> int)
      requires count <= INT32_MAX
      ensures Valid() && ownedPartitions == {} && instanceIndex == -1 && instanceCount == 0
      ensures partitionCount == (if count < 1 then 1 else count) && this.instanceID == instanceID && this.hash == hash
    {
      partitionCount := if count < 1 then 1 else count;
      this.instanceID, this.hash := instanceID, hash;
      ownedPartitions, instanceIndex, instanceCount := {}, -1, 0;
    }

    function CalculatePartition(id: string): int
      requires partitionCount > 0
    {
      GoPartition(hash(id), partitionCount)
    }

    predicate IsMonitorOwned(id: string)
      requires partitionCount > 0
      reads this
    {
      CalculatePartition(id) in ownedPartitions
    }

    /** RecalculateOwnership: the new ownership, and what changed, sorted. */
    method RecalculateOwnership(instances: seq<string>) returns (gained: seq<int>, lost: seq<int>)
      requires Valid()
      modifies this
      ensures Valid() && ownedPartitions == Owned(instances, instanceID, partitionCount)
      ensures instanceIndex == IndexOf(instances, instanceID) && instanceCount == |instances|
      ensures Increasing(gained) && Increasing(lost)
      ensures var delta := DeltaOf(old(ownedPartitions), ownedPartitions);
        (forall p :: p in gained <==> p in delta.gained) && (forall p :: p in lost <==> p in delta.lost)
    {
      var index := -1;
      var i := 0;
      IndexOfMeans(instances, instanceID);
      while i < |instances| && index == -1
        invariant 0 <= i <= |instances|
        invariant index == -1 ==> forall j :: 0 <= j < i ==> instances[j] != instanceID
        invariant index >= 0 ==> index == IndexOf(instances, instanceID)
        invariant index >= -1
        decreases |instances| - i, index == -1
      {
        if instances[i] == instanceID { index := i; }
        i := i + 1;
      }

      if index == -1 {
        AbsentOwnsNothing(instances, instanceID, partitionCount);
        gained := [];
        lost := Sorted(ownedPartitions, partitionCount);
        ownedPartitions, instanceIndex, instanceCount := {}, -1, |instances|;
        return;
      }

      var newOwned := {};
      for p := 0 to partitionCount
        invariant newOwned == set q | 0 <= q < p && q % |instances| == index
      {
        if p % |instances| == index { newOwned := newOwned + {p}; }
      }
      assert newOwned == Owned(instances, instanceID, partitionCount);
      gained := Sorted(newOwned - ownedPartitions, partitionCount);
      lost := Sorted(ownedPartitions - newOwned, partitionCount);
      ownedPartitions, instanceIndex, instanceCount := newOwned, index, |instances|;
    }
  }
}
