/** The advertised work-factor floor: an order statistic of the stored blocks. */
module Median {
  import opened Types
  import opened Database
  import opened Sorting
  import opened SetSize

  const DEFAULT_LIMIT: nat := 10 * 1024 * 1024 * 1024

  /** capacity / 2, in blocks, for a configured limit (0 means the default). */
  function HalfCapacity(limit: nat): nat {
    (if limit == 0 then DEFAULT_LIMIT else limit) / BLOCK_SIZE / 2
  }

  ghost function AtLeast(t: Trav, f: int): set<TravKey> {
    set k | k in t && t[k].wf >= f
  }

  /** f is the half-th largest stored work factor, or 0 while half or fewer are stored. */
  ghost predicate IsFloor(t: Trav, half: nat, f: int) {
    if |t| <= half then f == 0
    else |AtLeast(t, f)| >= half > |AtLeast(t, f + 1)|
  }

  lemma FloorUnique(t: Trav, half: nat, f: int, g: int)
    requires IsFloor(t, half, f) && IsFloor(t, half, g)
    ensures f == g
  {
    if f < g { SubsetSize(AtLeast(t, g), AtLeast(t, f + 1)); }
    if g < f { SubsetSize(AtLeast(t, f), AtLeast(t, g + 1)); }
  }

  function WfKey(t: Trav): TravKey -> int {
    k => if k in t then t[k].wf else 0
  }

  /** computeMedianWorkFactor. None stands for the index panic: it happens exactly when the
      limit is below two blocks and the store is not empty. `byWf` are the entries in order
      of work factor. */
  method ComputeFloor(t: Trav, limit: nat) returns (floor: Option<int>, ghost byWf: seq<TravKey>)
    ensures Lists(byWf, t.Keys) && SortedBy(byWf, WfKey(t))
    ensures floor == None <==> limit != 0 && limit / 4113 / 2 == 0 && t != map[]
    ensures var half := (if limit == 0 then 10737418240 else limit) / 4113 / 2;
            floor.Some? ==> IsFloor(t, half, floor.value) && floor.value == PickFloor(Wfs(t, byWf), half)
  {
    var list := ListSet(t.Keys);
    var sorted := SortSlice(list, WfKey(t));
    byWf := sorted;
    ListsFacts(sorted, t.Keys);
    var halfCapacity := HalfCapacity(limit);
    if |sorted| <= halfCapacity {
      return Some(0), byWf;
    }
    var index := |sorted| - halfCapacity;
    if index >= |sorted| {
      return None, byWf;
    }
    HalfthLargest(t, sorted, halfCapacity);
    return Some(t[sorted[index]].wf), byWf;
  }

  ghost function Wfs(t: Trav, keys: seq<TravKey>): seq<int> {
    seq(|keys|, i requires 0 <= i < |keys| => WfKey(t)(keys[i]))
  }

  /** The element of a sorted list that the code answers with. */
  function PickFloor(wfs: seq<int>, half: nat): int {
    if |wfs| <= half || half == 0 then 0 else wfs[|wfs| - half]
  }

  lemma HalfthLargest(t: Trav, keys: seq<TravKey>, half: nat)
    requires Lists(keys, t.Keys) && SortedBy(keys, WfKey(t)) && 1 <= half < |keys|
    ensures keys[|keys| - half] in t && IsFloor(t, half, t[keys[|keys| - half]].wf)
  {
    ListsFacts(keys, t.Keys);
    assert keys[|keys| - half] in keys;
    TopHalf(t, keys, |keys| - half);
    AboveHalf(t, keys, |keys| - half);
  }

  lemma TopHalf(t: Trav, keys: seq<TravKey>, p: nat)
    requires Lists(keys, t.Keys) && SortedBy(keys, WfKey(t)) && p < |keys|
    ensures |AtLeast(t, WfKey(t)(keys[p]))| >= |keys| - p
  {
    ListsFacts(keys, t.Keys);
    var wf := WfKey(t);
    var top := set i | p <= i < |keys| :: keys[i];
    forall k | k in top ensures k in AtLeast(t, wf(keys[p])) {
      var i :| p <= i < |keys| && keys[i] == k;
      assert keys[i] in keys;
      assert i == p || wf(keys[p]) <= wf(keys[i]);
    }
    RangeSize(keys, p);
    SubsetSize(top, AtLeast(t, wf(keys[p])));
  }

  lemma AboveHalf(t: Trav, keys: seq<TravKey>, p: nat)
    requires Lists(keys, t.Keys) && SortedBy(keys, WfKey(t)) && p < |keys|
    ensures |AtLeast(t, WfKey(t)(keys[p]) + 1)| < |keys| - p
  {
    ListsFacts(keys, t.Keys);
    var wf := WfKey(t);
    var above := set i | p + 1 <= i < |keys| :: keys[i];
    forall k | k in AtLeast(t, wf(keys[p]) + 1) ensures k in above {
      var i :| 0 <= i < |keys| && keys[i] == k;
      assert p < i;
    }
    RangeSize(keys, p + 1);
    SubsetSize(AtLeast(t, wf(keys[p]) + 1), above);
  }

  lemma {:induction false} RangeSize(keys: seq<TravKey>, a: nat)
    requires a <= |keys| && forall i, j :: 0 <= i < j < |keys| ==> keys[i] != keys[j]
    ensures |set i | a <= i < |keys| :: keys[i]| == |keys| - a
    decreases |keys| - a
  {
    var s := set i | a <= i < |keys| :: keys[i];
    if a == |keys| {
      assert s == {};
    } else {
      var r := set i | a + 1 <= i < |keys| :: keys[i];
      RangeSize(keys, a + 1);
      assert s == r + {keys[a]};
    }
  }

  /** A Put without eviction never lowers the floor, whatever time it carries. */
  lemma PutNeverLowers(env: Env, db: Db, now: nat, at: nat, stamp: Stamp, payload: Payload, tag: Tag, half: nat,
                       f: int, f': int)
    requires RepInv(env, db, now)
    requires IsFloor(db.trav, half, f) && IsFloor(CommitTxn(env, db, now, at, stamp, payload, tag).trav, half, f')
    ensures f <= f'
  {
    var t, t' := db.trav, CommitTxn(env, db, now, at, stamp, payload, tag).trav;
    PutCounts(env, db, now, at, stamp, payload, tag, 0);
    assert AtLeast(t, 0) == t.Keys && AtLeast(t', 0) == t'.Keys;
    assert |t.Keys| == |t| && |t'.Keys| == |t'|;
    if |t| > half {
      PutCounts(env, db, now, at, stamp, payload, tag, f);
      if f' < f { SubsetSize(AtLeast(t', f), AtLeast(t', f' + 1)); }
    } else if |t'| > half && f' < 0 {
      SubsetSize(t'.Keys, AtLeast(t', f' + 1));
    }
  }

  lemma PutCounts(env: Env, db: Db, now: nat, at: nat, stamp: Stamp, payload: Payload, tag: Tag, f: int)
    requires RepInv(env, db, now)
    ensures |AtLeast(db.trav, f)| <= |AtLeast(CommitTxn(env, db, now, at, stamp, payload, tag).trav, f)|
  {
    if Accepts(env, db, now, stamp, payload) {
      var id := env.computeID(payload);
      var val := TravVal(env.workFactor(stamp, payload), tag);
      if id in db.blocks {
        assert KeyOf(id, db.blocks[id]) in db.trav;
        UpgradeCounts(db.trav, KeyOf(id, db.blocks[id]), TravKey(at, id), val, f);
      } else {
        InsertCounts(db.trav, TravKey(at, id), val, f);
      }
    }
  }

  lemma InsertCounts(t: Trav, put: TravKey, val: TravVal, f: int)
    requires put !in t
    ensures |AtLeast(t, f)| <= |AtLeast(t[put := val], f)|
  {
    SubsetSize(AtLeast(t, f), AtLeast(t[put := val], f));
  }

  lemma UpgradeCounts(t: Trav, drop: TravKey, put: TravKey, val: TravVal, f: int)
    requires drop in t && t[drop].wf <= val.wf && (put in t ==> put == drop)
    ensures |AtLeast(t, f)| <= |AtLeast((t - {drop})[put := val], f)|
  {
    var a, a' := AtLeast(t, f), AtLeast((t - {drop})[put := val], f);
    var moved := if drop in a then {put} else {};
    forall k | k in a - {drop} + moved ensures k in a' {
      if k == put { assert k in moved; }
    }
    SwapSize(a, drop, put);
    SubsetSize(a - {drop} + moved, a');
  }

  lemma SwapSize<T>(a: set<T>, drop: T, put: T)
    requires put in a ==> put == drop
    ensures |a - {drop} + if drop in a then {put} else {}| == |a|
  {}

  // ---- The zero-padded array ----

  ghost predicate SortedInts(s: seq<int>) {
    forall i, j :: 0 <= i < j < |s| ==> s[i] <= s[j]
  }

  lemma LastIsMax(a: seq<int>, b: seq<int>)
    requires SortedInts(b) && multiset(a) == multiset(b) && a != [] && |a| == |b|
    ensures a[|a| - 1] <= b[|b| - 1]
  {
    assert a[|a| - 1] in multiset(b);
    var i :| 0 <= i < |b| && b[i] == a[|a| - 1];
  }

  lemma {:induction false} SortedUnique(a: seq<int>, b: seq<int>)
    requires SortedInts(a) && SortedInts(b) && multiset(a) == multiset(b)
    ensures a == b
  {
    assert |multiset(a)| == |a| && |multiset(b)| == |b|;
    if a != [] {
      var n := |a| - 1;
      LastIsMax(a, b);
      LastIsMax(b, a);
      WithoutLast(a);
      WithoutLast(b);
      SortedUnique(a[..n], b[..n]);
    }
  }

  lemma WithoutLast(a: seq<int>)
    requires a != []
    ensures a == a[..|a| - 1] + [a[|a| - 1]]
    ensures multiset(a[..|a| - 1]) == multiset(a) - multiset{a[|a| - 1]}
  {}

  /** For stored work factors wfs, in order, the value the code picks is an element of the
      sorted array padded with zeros to the capacity: the one at capacity - half. */
  lemma PaddedPosition(wfs: seq<int>, capacity: nat, padded: seq<int>)
    requires SortedInts(wfs) && (forall i :: 0 <= i < |wfs| ==> wfs[i] >= 0)
    requires capacity / 2 <= |wfs| <= capacity && 2 <= capacity
    requires SortedInts(padded) && multiset(padded) == multiset(wfs) + multiset(seq(capacity - |wfs|, _ => 0))
    ensures |padded| == capacity && wfs[|wfs| - capacity / 2] == padded[capacity - capacity / 2]
  {
    var zeros := seq(capacity - |wfs|, _ => 0);
    assert SortedInts(zeros + wfs);
    SortedUnique(padded, zeros + wfs);
  }

  /** So for an even capacity, once more than half is used, the floor is the median of the
      padded array; at exactly half full it is only if the smallest work factor is 0, since
      the code then answers 0. */
  lemma PaddedMedian(wfs: seq<int>, capacity: nat, padded: seq<int>)
    requires SortedInts(wfs) && (forall i :: 0 <= i < |wfs| ==> wfs[i] >= 0)
    requires 2 <= capacity && capacity % 2 == 0 && |wfs| <= capacity
    requires SortedInts(padded) && multiset(padded) == multiset(wfs) + multiset(seq(capacity - |wfs|, _ => 0))
    ensures |padded| == capacity
    ensures PickFloor(wfs, capacity / 2) == padded[capacity / 2] <==> |wfs| != capacity / 2 || wfs[0] == 0
  {
    var zeros := seq(capacity - |wfs|, _ => 0);
    assert SortedInts(zeros + wfs);
    SortedUnique(padded, zeros + wfs);
  }
}
