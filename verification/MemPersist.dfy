/** The bounded snapshot store of the emergency monitor (internal/emergency/persist_mem.go). */
module MemPersist {
  import opened Common
  import opened Sorting

  const MIN_INT64: int := -0x8000_0000_0000_0000
  const MAX_INT64: int := 0x7fff_ffff_ffff_ffff

  /** The machine's integers: snapshot ids and settings. */
  type Int64 = x: int | MIN_INT64 <= x <= MAX_INT64 witness 0

  type SnapID = Int64

  datatype SqlInfo = SqlInfo(snapID: SnapID, uniqueSqlID: int, sample: int)

  datatype InsInfo = InsInfo(snapID: SnapID, sample: int)

  function Pick(log: seq<SqlInfo>, p: SqlInfo -> bool): seq<SqlInfo> {
    if log == [] then [] else (if p(log[0]) then [log[0]] else []) + Pick(log[1..], p)
  }

  lemma {:induction false} PickSame(log: seq<SqlInfo>, p: SqlInfo -> bool, q: SqlInfo -> bool)
    requires forall x :: x in log ==> p(x) == q(x)
    ensures Pick(log, p) == Pick(log, q)
  {
    if log != [] {
      assert log[0] in log;
      PickSame(log[1..], p, q);
    }
  }

  lemma {:induction false} PickJoin(a: seq<SqlInfo>, b: seq<SqlInfo>, p: SqlInfo -> bool)
    ensures Pick(a + b, p) == Pick(a, p) + Pick(b, p)
  {
    if a == [] {
      assert a + b == b;
    } else {
      var head, rest := if p(a[0]) then [a[0]] else [], a[1..];
      assert (a + b)[1..] == rest + b;
      assert Pick(a + b, p) == head + Pick(rest + b, p) && Pick(a, p) == head + Pick(rest, p);
      PickJoin(rest, b, p);
      hide Pick;
      assert head + (Pick(rest, p) + Pick(b, p)) == (head + Pick(rest, p)) + Pick(b, p);
    }
  }

  lemma {:induction false} PickNone(log: seq<SqlInfo>, p: SqlInfo -> bool)
    requires forall x :: x in log ==> !p(x)
    ensures Pick(log, p) == []
  {
    if log != [] {
      assert log[0] in log;
      PickNone(log[1..], p);
    }
  }

  lemma {:induction false} PickPick(log: seq<SqlInfo>, p: SqlInfo -> bool, q: SqlInfo -> bool)
    ensures Pick(Pick(log, p), q) == Pick(log, (x: SqlInfo) => p(x) && q(x))
  {
    if log != [] {
      PickPick(log[1..], p, q);
      var rest := Pick(log[1..], p);
      assert ([log[0]] + rest)[1..] == rest && [] + rest == rest;
    }
  }

  /** Snapshot ids never fall. */
  predicate Chronological(log: seq<SqlInfo>) {
    forall i, j :: 0 <= i < j < |log| ==> log[i].snapID <= log[j].snapID
  }

  /** The samples of one snapshot. */
  function Bucket(log: seq<SqlInfo>, id: SnapID): seq<SqlInfo> { Pick(log, (x: SqlInfo) => x.snapID == id) }

  predicate Occurs(log: seq<SqlInfo>, id: SnapID) { exists x :: x in log && x.snapID == id }

  /**
   * `buckets` holds the newest snapshots of the log, each whole: all of them, or at least
   * `capacity - 1`.
   */
  ghost predicate Retains(buckets: map<SnapID, seq<SqlInfo>>, log: seq<SqlInfo>, capacity: int) {
    && Chronological(log) && |buckets| <= capacity
    && Whole(buckets, log) && Newest(buckets, log) && NearlyFull(buckets, log, capacity)
  }

  ghost predicate Whole(buckets: map<SnapID, seq<SqlInfo>>, log: seq<SqlInfo>) {
    forall id :: id in buckets ==> buckets[id] == Bucket(log, id) && Occurs(log, id)
  }

  ghost predicate Newest(buckets: map<SnapID, seq<SqlInfo>>, log: seq<SqlInfo>) {
    forall id: SnapID, k: SnapID :: id in buckets && Occurs(log, k) && id < k ==> k in buckets
  }

  ghost predicate NearlyFull(buckets: map<SnapID, seq<SqlInfo>>, log: seq<SqlInfo>, capacity: int) {
    forall k: SnapID :: Occurs(log, k) && k !in buckets ==> |buckets| >= capacity - 1
  }

  /** The answer of a store that never forgets. */
  function FromLog(log: seq<SqlInfo>, scope: int, target: int, uniqueSqlID: int): seq<SqlInfo> {
    Pick(log, (x: SqlInfo) => target - scope <= x.snapID <= target - 1 && x.uniqueSqlID == uniqueSqlID)
  }

  lemma OccursNext(log: seq<SqlInfo>, info: SqlInfo)
    ensures forall k: SnapID :: Occurs(log + [info], k) <==> Occurs(log, k) || k == info.snapID
  {
    forall k: SnapID ensures Occurs(log + [info], k) <==> Occurs(log, k) || k == info.snapID {
      if Occurs(log, k) {
        var x :| x in log && x.snapID == k;
        assert x in log + [info];
      }
      assert info in log + [info];
    }
  }

  lemma BucketNext(log: seq<SqlInfo>, info: SqlInfo, id: SnapID)
    ensures Bucket(log + [info], id) == if id == info.snapID then Bucket(log, id) + [info] else Bucket(log, id)
  {
    PickJoin(log, [info], (x: SqlInfo) => x.snapID == id);
    assert [info][1..] == [];
    assert Bucket(log, id) + [] == Bucket(log, id);
  }

  lemma NoBucket(log: seq<SqlInfo>, id: SnapID)
    requires !Occurs(log, id)
    ensures Bucket(log, id) == []
  {
    PickNone(log, (x: SqlInfo) => x.snapID == id);
  }

  /** Dropping the oldest bucket of a full store leaves the newest ones. */
  lemma EvictRetains(buckets: map<SnapID, seq<SqlInfo>>, log: seq<SqlInfo>, capacity: int, oldest: SnapID)
    requires Retains(buckets, log, capacity) && |buckets| >= capacity && oldest in buckets
    requires forall id :: id in buckets ==> oldest <= id
    ensures Retains(buckets - {oldest}, log, capacity) && |buckets - {oldest}| == capacity - 1
  {
    hide Chronological, Occurs, Bucket;
    assert (buckets - {oldest}).Keys == buckets.Keys - {oldest};
  }

  lemma AppendWhole(buckets: map<SnapID, seq<SqlInfo>>, log: seq<SqlInfo>, info: SqlInfo)
    requires Whole(buckets, log)
    requires info.snapID !in buckets ==> !Occurs(log, info.snapID)
    ensures Whole(Appended(buckets, info), log + [info])
  {
    var after := Appended(buckets, info);
    if info.snapID !in buckets { NoBucket(log, info.snapID); }
    OccursNext(log, info);
    hide Bucket, Occurs;
    forall id | id in after ensures after[id] == Bucket(log + [info], id) && Occurs(log + [info], id) {
      BucketNext(log, info, id);
    }
  }

  lemma AppendNewest(buckets: map<SnapID, seq<SqlInfo>>, log: seq<SqlInfo>, info: SqlInfo)
    requires Newest(buckets, log) && forall x :: x in log ==> x.snapID <= info.snapID
    ensures Newest(Appended(buckets, info), log + [info])
  {
    OccursNext(log, info);
    var after := Appended(buckets, info);
    hide Occurs;
    forall id: SnapID, k: SnapID | id in after && Occurs(log + [info], k) && id < k ensures k in after {
      if id == info.snapID { OccursAtMost(log, info, k); }
    }
  }

  lemma AppendNearlyFull(buckets: map<SnapID, seq<SqlInfo>>, log: seq<SqlInfo>, capacity: int, info: SqlInfo)
    requires NearlyFull(buckets, log, capacity)
    ensures NearlyFull(Appended(buckets, info), log + [info], capacity)
  {
    OccursNext(log, info);
    AppendedSize(buckets, info);
    hide Occurs;
  }

  /** Appending the newest sample to a store with room for it. */
  lemma AppendRetains(buckets: map<SnapID, seq<SqlInfo>>, log: seq<SqlInfo>, capacity: int, info: SqlInfo)
    requires Retains(buckets, log, capacity) && |buckets| < capacity
    requires forall x :: x in log ==> x.snapID <= info.snapID
    requires info.snapID !in buckets ==> !Occurs(log, info.snapID)
    ensures Retains(Appended(buckets, info), log + [info], capacity)
  {
    hide Chronological, Whole, Newest, NearlyFull, Appended, Occurs;
    ChronologicalNext(log, info);
    AppendWhole(buckets, log, info);
    AppendNewest(buckets, log, info);
    AppendNearlyFull(buckets, log, capacity, info);
    AppendedSize(buckets, info);
  }

  lemma ChronologicalNext(log: seq<SqlInfo>, info: SqlInfo)
    requires Chronological(log) && forall x :: x in log ==> x.snapID <= info.snapID
    ensures Chronological(log + [info])
  {
  }

  lemma KeysGrow(m: map<SnapID, seq<SqlInfo>>, after: map<SnapID, seq<SqlInfo>>, id: SnapID)
    requires after.Keys == m.Keys + {id}
    ensures |after| == if id in m then |m| else |m| + 1
  {
    assert |after| == |after.Keys| && |m| == |m.Keys|;
    if id in m { assert after.Keys == m.Keys; }
  }

  lemma OccursAtMost(log: seq<SqlInfo>, info: SqlInfo, k: SnapID)
    requires Occurs(log + [info], k) && forall x :: x in log ==> x.snapID <= info.snapID
    ensures k <= info.snapID
  {
  }

  // ---- the query ----

  predicate InWindow(scope: int, target: int, id: SnapID) { target - scope <= id <= target - 1 }

  function Matching(bucket: seq<SqlInfo>, uniqueSqlID: int): seq<SqlInfo> {
    Pick(bucket, (x: SqlInfo) => x.uniqueSqlID == uniqueSqlID)
  }

  /** The matching samples of the snapshots `keys`, bucket after bucket. */
  function FromBuckets(buckets: map<SnapID, seq<SqlInfo>>, keys: seq<SnapID>, scope: int, target: int, uniqueSqlID: int): seq<SqlInfo>
    requires forall k :: k in keys ==> k in buckets
  {
    if keys == [] then []
    else FromBuckets(buckets, keys[..|keys| - 1], scope, target, uniqueSqlID)
         + (if InWindow(scope, target, keys[|keys| - 1]) then Matching(buckets[keys[|keys| - 1]], uniqueSqlID) else [])
  }

  function KeyTest(keys: seq<SnapID>, scope: int, target: int, uniqueSqlID: int): SqlInfo -> bool {
    (x: SqlInfo) => x.snapID in keys && InWindow(scope, target, x.snapID) && x.uniqueSqlID == uniqueSqlID
  }

  /** The matching samples of the log whose snapshot is one of `keys`. */
  function FromKeys(log: seq<SqlInfo>, keys: seq<SnapID>, scope: int, target: int, uniqueSqlID: int): seq<SqlInfo> {
    Pick(log, KeyTest(keys, scope, target, uniqueSqlID))
  }

  /** All keys of a map, oldest first. */
  ghost predicate Enumerates(keys: seq<SnapID>, m: map<SnapID, seq<SqlInfo>>) {
    Rising(keys) && forall k :: k in keys <==> k in m
  }

  predicate Rising(keys: seq<SnapID>) { forall i, j :: 0 <= i < j < |keys| ==> keys[i] < keys[j] }

  /** In a chronological log the samples of a later snapshot follow all others. */
  lemma {:induction false} PickLater(log: seq<SqlInfo>, p: SqlInfo -> bool, q: SqlInfo -> bool, id: SnapID)
    requires Chronological(log) && forall x :: (p(x) ==> x.snapID < id) && (q(x) ==> x.snapID == id)
    ensures Pick(log, (x: SqlInfo) => p(x) || q(x)) == Pick(log, p) + Pick(log, q)
  {
    if log != [] {
      PickLater(log[1..], p, q, id);
      if q(log[0]) {
        forall x | x in log[1..] ensures !p(x) { assert log[0].snapID <= x.snapID; }
        PickNone(log[1..], p);
      }
    }
  }

  lemma {:induction false} BucketsAreLog(
      buckets: map<SnapID, seq<SqlInfo>>, log: seq<SqlInfo>, keys: seq<SnapID>, scope: int, target: int, uniqueSqlID: int)
    requires Chronological(log) && Rising(keys)
    requires forall k :: k in keys ==> k in buckets && buckets[k] == Bucket(log, k)
    ensures FromBuckets(buckets, keys, scope, target, uniqueSqlID) == FromKeys(log, keys, scope, target, uniqueSqlID)
  {
    if keys == [] {
      PickNone(log, KeyTest(keys, scope, target, uniqueSqlID));
    } else {
      var rest, last := keys[..|keys| - 1], keys[|keys| - 1];
      BucketsAreLog(buckets, log, rest, scope, target, uniqueSqlID);
      AddLastKey(log, keys, scope, target, uniqueSqlID);
      hide FromKeys, Matching, Bucket, Chronological;
    }
  }

  /** The samples of the highest key come last. */
  lemma AddLastKey(log: seq<SqlInfo>, keys: seq<SnapID>, scope: int, target: int, uniqueSqlID: int)
    requires Chronological(log) && Rising(keys) && keys != []
    ensures var last := keys[|keys| - 1];
            FromKeys(log, keys, scope, target, uniqueSqlID) ==
            FromKeys(log, keys[..|keys| - 1], scope, target, uniqueSqlID)
            + (if InWindow(scope, target, last) then Matching(Bucket(log, last), uniqueSqlID) else [])
  {
    var rest, last := keys[..|keys| - 1], keys[|keys| - 1];
    assert keys == rest + [last];
    var p, r := KeyTest(rest, scope, target, uniqueSqlID), KeyTest(keys, scope, target, uniqueSqlID);
    var q := (x: SqlInfo) => x.snapID == last && InWindow(scope, target, x.snapID) && x.uniqueSqlID == uniqueSqlID;
    PickLater(log, p, q, last);
    var pq := (x: SqlInfo) => p(x) || q(x);
    assert forall x :: pq(x) == r(x);
    LastBucket(log, last, q, scope, target, uniqueSqlID);
    hide KeyTest, Matching, Bucket, Pick, Chronological;
    PickSame(log, pq, r);
    PickSame(log, pq, (x: SqlInfo) => p(x) || q(x));
  }

  lemma LastBucket(log: seq<SqlInfo>, last: SnapID, q: SqlInfo -> bool, scope: int, target: int, uniqueSqlID: int)
    requires forall x :: q(x) <==> x.snapID == last && InWindow(scope, target, x.snapID) && x.uniqueSqlID == uniqueSqlID
    ensures Pick(log, q) == if InWindow(scope, target, last) then Matching(Bucket(log, last), uniqueSqlID) else []
  {
    var b := (x: SqlInfo) => x.snapID == last;
    var u := (x: SqlInfo) => x.uniqueSqlID == uniqueSqlID;
    if InWindow(scope, target, last) {
      PickPick(log, b, u);
      PickSame(log, q, (x: SqlInfo) => b(x) && u(x));
      PickSame(Bucket(log, last), u, (x: SqlInfo) => x.uniqueSqlID == uniqueSqlID);
      PickSame(log, b, (x: SqlInfo) => x.snapID == last);
    } else {
      PickNone(log, q);
    }
  }

  lemma {:induction false} WindowSize(ids: set<SnapID>, lo: int, n: nat)
    requires forall id :: id in ids ==> lo < id <= lo + n
    ensures |ids| <= n
    decreases n
  {
    if n > 0 {
      var rest := ids - {lo + n};
      WindowSize(rest, lo, n - 1);
      assert |rest| == if lo + n in ids then |ids| - 1 else |ids|;
    } else {
      assert ids == {};
    }
  }

  /** With room for two snapshots more than the window, no snapshot of the window was dropped. */
  lemma WindowRetained(buckets: map<SnapID, seq<SqlInfo>>, log: seq<SqlInfo>, capacity: int, scope: int, target: int, id: SnapID)
    requires Retains(buckets, log, capacity) && capacity >= scope + 2
    requires forall x :: x in log ==> x.snapID <= target
    requires Occurs(log, id) && InWindow(scope, target, id)
    ensures id in buckets
  {
    if id !in buckets {
      forall k | k in buckets ensures id < k <= target {
        assert Occurs(log, k);
      }
      WindowSize(buckets.Keys, id, target - id);
    }
  }

  /** The bounded store answers like an unbounded log. */
  lemma AnswersLikeLog(
      buckets: map<SnapID, seq<SqlInfo>>, log: seq<SqlInfo>, capacity: int, keys: seq<SnapID>, scope: int, target: int, uniqueSqlID: int)
    requires Retains(buckets, log, capacity) && capacity >= scope + 2
    requires forall x :: x in log ==> x.snapID <= target
    requires Rising(keys) && forall k :: k in keys <==> k in buckets
    ensures FromBuckets(buckets, keys, scope, target, uniqueSqlID) == FromLog(log, scope, target, uniqueSqlID)
  {
    BucketsAreLog(buckets, log, keys, scope, target, uniqueSqlID);
    var p := KeyTest(keys, scope, target, uniqueSqlID);
    var q := (x: SqlInfo) => target - scope <= x.snapID <= target - 1 && x.uniqueSqlID == uniqueSqlID;
    forall x | x in log ensures p(x) == q(x) {
      if q(x) {
        assert Occurs(log, x.snapID);
        WindowRetained(buckets, log, capacity, scope, target, x.snapID);
      }
    }
    PickSame(log, p, q);
  }

  // ---- the store ----

  predicate Oldest<V>(m: map<SnapID, V>, k: SnapID) { k in m && forall j :: j in m ==> k <= j }

  method MinKey<V>(m: map<SnapID, V>) returns (min: SnapID, found: bool)
    ensures found <==> m.Keys != {}
    ensures found ==> Oldest(m, min)
  {
    var rest := m.Keys;
    min, found := 0, false;
    while rest != {}
      invariant rest <= m.Keys
      invariant found <==> rest != m.Keys
      invariant found ==> min in m && forall j :: j in m && j !in rest ==> min <= j
      decreases |rest|
    {
      var k :| k in rest;
      rest := rest - {k};
      if !found || k < min { min, found := k, true; }
    }
  }

  /** A full map loses its oldest key. */
  ghost predicate Evicted<V>(m: map<SnapID, V>, max: int, kept: map<SnapID, V>) {
    if |m| < max || m.Keys == {} then kept == m
    else exists k :: Oldest(m, k) && kept == m - {k}
  }

  method EvictOldest<V>(m: map<SnapID, V>, max: int) returns (kept: map<SnapID, V>)
    ensures Evicted(m, max, kept)
  {
    kept := m;
    if |m| < max { return; }
    var k, found := MinKey(m);
    if found { kept := m - {k}; }
  }

  method SortedKeys<V>(m: map<SnapID, V>) returns (keys: seq<SnapID>)
    ensures Rising(keys) && forall k :: k in keys <==> k in m
  {
    var unsorted: seq<SnapID>, rest := [], m.Keys;
    while rest != {}
      invariant rest <= m.Keys
      invariant forall k :: k in unsorted <==> k in m && k !in rest
      invariant forall i, j :: 0 <= i < j < |unsorted| ==> unsorted[i] != unsorted[j]
      decreases |rest|
    {
      var k :| k in rest;
      rest := rest - {k};
      unsorted := unsorted + [k];
    }
    var le := (a: SnapID, b: SnapID) => a <= b;
    SortCorrect(le, unsorted);
    ApartPermutes((a: SnapID, b: SnapID) => a == b, unsorted, Sort(le, unsorted));
    keys := Sort(le, unsorted);
    SortedApartRises(keys);
  }

  lemma SortedApartRises(keys: seq<SnapID>)
    requires SortedBy((a: SnapID, b: SnapID) => a <= b, keys) && Apart((a: SnapID, b: SnapID) => a == b, keys)
    ensures Rising(keys)
  {
    var le, eq := (a: SnapID, b: SnapID) => a <= b, (a: SnapID, b: SnapID) => a == b;
    forall i, j | 0 <= i < j < |keys| ensures keys[i] < keys[j] {
      assert le(keys[i], keys[j]) && !eq(keys[i], keys[j]);
    }
  }

  lemma {:induction false} OldestExists<V>(m: map<SnapID, V>)
    requires m.Keys != {}
    ensures exists k :: Oldest(m, k)
    decreases |m|
  {
    var k :| k in m;
    var rest := m - {k};
    assert rest.Keys == m.Keys - {k};
    var least := k;
    if rest.Keys != {} {
      OldestExists(rest);
      var j :| Oldest(rest, j);
      if j < k { least := j; }
    }
    forall i | i in m ensures least <= i {
      assert i == k || i in rest;
    }
    assert Oldest(m, least);
  }

  /** What an eviction leaves. */
  ghost function Kept<V(!new)>(m: map<SnapID, V>, max: int): (kept: map<SnapID, V>)
    ensures Evicted(m, max, kept)
    ensures forall other :: Evicted(m, max, other) ==> other == kept
  {
    if |m| < max || m.Keys == {} then m else
    OldestExists(m);
    var k :| Oldest(m, k);
    m - {k}
  }

  /** The buckets after one more sample, from those kept. */
  function Appended(kept: map<SnapID, seq<SqlInfo>>, info: SqlInfo): map<SnapID, seq<SqlInfo>> {
    kept[info.snapID := (if info.snapID in kept then kept[info.snapID] else []) + [info]]
  }

  /** The buckets after all samples of the log were persisted in order. */
  ghost function Store(log: seq<SqlInfo>, capacity: int): map<SnapID, seq<SqlInfo>> {
    if log == [] then map[] else Appended(Kept(Store(log[..|log| - 1], capacity), capacity), log[|log| - 1])
  }

  lemma StoreStep(log: seq<SqlInfo>, info: SqlInfo, capacity: int)
    ensures Store(log + [info], capacity) == Appended(Kept(Store(log, capacity), capacity), info)
  {
    assert (log + [info])[..|log|] == log;
  }

  /** With room for two snapshots or more the buckets are a complete suffix of the log. */
  lemma {:induction false} StoreRetains(log: seq<SqlInfo>, capacity: int)
    requires Chronological(log) && capacity >= 2
    ensures Retains(Store(log, capacity), log, capacity)
  {
    if log != [] {
      var rest, info := log[..|log| - 1], log[|log| - 1];
      assert log == rest + [info];
      StoreRetains(rest, capacity);
      StoreStep(rest, info, capacity);
      PersistRetains(Store(rest, capacity), rest, capacity, info, Kept(Store(rest, capacity), capacity));
    }
  }

  lemma PersistRetains(buckets: map<SnapID, seq<SqlInfo>>, log: seq<SqlInfo>, capacity: int, info: SqlInfo, kept: map<SnapID, seq<SqlInfo>>)
    requires Retains(buckets, log, capacity) && capacity >= 2 && Evicted(buckets, capacity, kept)
    requires forall x :: x in log ==> x.snapID <= info.snapID
    ensures Retains(Appended(kept, info), log + [info], capacity)
  {
    if |buckets| >= capacity {
      var k :| Oldest(buckets, k) && kept == buckets - {k};
      EvictRetains(buckets, log, capacity, k);
      if Occurs(log, info.snapID) { NewestKept(buckets, log, k, info.snapID); }
    }
    hide Chronological, Bucket;
    if |buckets| < capacity && Occurs(log, info.snapID) { NewestStored(buckets, log, capacity, info); }
    AppendRetains(kept, log, capacity, info);
  }

  /** Of two or more buckets the oldest is not the newest. */
  lemma NewestKept(buckets: map<SnapID, seq<SqlInfo>>, log: seq<SqlInfo>, k: SnapID, newest: SnapID)
    requires |buckets| >= 2 && Oldest(buckets, k) && Occurs(log, newest)
    requires forall x :: x in log ==> x.snapID <= newest
    requires forall id :: id in buckets ==> Occurs(log, id)
    requires forall id: SnapID, j: SnapID :: id in buckets && Occurs(log, j) && id < j ==> j in buckets
    ensures newest in buckets && newest != k
  {
    assert |buckets.Keys - {k}| == |buckets| - 1;
    var id :| id in buckets && id != k;
    assert k < id <= newest;
  }

  lemma NewestStored(buckets: map<SnapID, seq<SqlInfo>>, log: seq<SqlInfo>, capacity: int, info: SqlInfo)
    requires Retains(buckets, log, capacity) && capacity >= 2
    requires Occurs(log, info.snapID) && forall x :: x in log ==> x.snapID <= info.snapID
    ensures info.snapID in buckets
  {
    assert |buckets.Keys| == |buckets|;
    if buckets.Keys != {} {
      var id :| id in buckets;
      assert Occurs(log, id);
      NoLater(log, info, id);
    }
  }

  lemma NoLater(log: seq<SqlInfo>, info: SqlInfo, id: SnapID)
    requires Occurs(log, id) && forall x :: x in log ==> x.snapID <= info.snapID
    ensures id <= info.snapID
  {
  }

  class MemPersist {
    var snapID: SnapID
    var insInfo: map<SnapID, InsInfo>
    var sqlInfo: map<SnapID, seq<SqlInfo>>
    const maxSnap: Int64
    const compareScope: Int64
    /** Everything ever persisted. */
    ghost var log: seq<SqlInfo>

    ghost predicate Valid()
      reads this
    {
      sqlInfo == Store(log, maxSnap)
    }

    constructor (maxSnap: Int64, compareScope: Int64)
      ensures Valid() && log == [] && snapID == 0 && insInfo == map[]
      ensures this.maxSnap == maxSnap && this.compareScope == compareScope
    {
      this.maxSnap, this.compareScope := maxSnap, compareScope;
      snapID, insInfo, sqlInfo, log := 0, map[], map[], [];
    }

    method GetSnapID() returns (id: SnapID)
      modifies this`snapID
      ensures id == snapID && (old(snapID) < MAX_INT64 ==> id == old(snapID) + 1)
    {
      snapID := if snapID == MAX_INT64 then MIN_INT64 else snapID + 1;
      id := snapID;
    }

    method PersistInsInfo(info: InsInfo)
      modifies this`insInfo
      ensures exists kept :: Evicted(old(insInfo), maxSnap, kept) && insInfo == kept[info.snapID := info]
    {
      var kept := EvictOldest(insInfo, maxSnap);
      insInfo := kept[info.snapID := info];
    }

    /** Stores a sample, making room first when full, even when its bucket is there. */
    method PersistSqlInfo(info: SqlInfo)
      requires Valid()
      modifies this`sqlInfo, this`log
      ensures Valid() && log == old(log) + [info]
      ensures exists kept :: Evicted(old(sqlInfo), maxSnap, kept) && sqlInfo == Appended(kept, info)
    {
      hide Evicted;
      var kept := EvictOldest(sqlInfo, maxSnap);
      StoreStep(log, info, maxSnap);
      sqlInfo := Appended(kept, info);
      log := log + [info];
    }

    /**
     * The samples of the comparison window, oldest first: those of the whole history exactly under the
     * settings of `EnoughExactly`, and never any that is not of the window or was not persisted.
     */
    method GetSqlInfoSnap(target: int, uniqueSqlID: int) returns (out: seq<SqlInfo>)
      requires Valid()
      ensures exists keys :: Enumerates(keys, sqlInfo)
                             && out == FromBuckets(sqlInfo, keys, compareScope, target, uniqueSqlID)
      ensures Enough(maxSnap, compareScope) && Chronological(log) && (forall x :: x in log ==> x.snapID <= target) ==>
                out == FromLog(log, compareScope, target, uniqueSqlID)
      ensures forall x :: x in out ==> x in log && InWindow(compareScope, target, x.snapID) && x.uniqueSqlID == uniqueSqlID
    {
      hide FromLog, Rising, Store, Filed;
      out := [];
      var keys: seq<SnapID> := SortedKeys(sqlInfo);
      for i := 0 to |keys|
        invariant out == FromBuckets(sqlInfo, keys[..i], compareScope, target, uniqueSqlID)
      {
        assert keys[..i + 1][..i] == keys[..i];
        if keys[i] < target - compareScope || keys[i] > target - 1 { continue; }
        var matching := MatchingSamples(sqlInfo[keys[i]], uniqueSqlID);
        out := out + matching;
      }
      assert keys[..|keys|] == keys;
      assert Enumerates(keys, sqlInfo);
      hide FromBuckets, Enumerates;
      if Enough(maxSnap, compareScope) && Chronological(log) && forall x :: x in log ==> x.snapID <= target {
        EnoughAnswers(log, maxSnap, keys, compareScope, target, uniqueSqlID);
      }
      StoreFiled(log, maxSnap);
      FromBucketsSound(sqlInfo, log, keys, compareScope, target, uniqueSqlID);
    }

    method MatchingSamples(bucket: seq<SqlInfo>, uniqueSqlID: int) returns (out: seq<SqlInfo>)
      ensures out == Matching(bucket, uniqueSqlID)
    {
      out := [];
      var p := (x: SqlInfo) => x.uniqueSqlID == uniqueSqlID;
      for i := 0 to |bucket|
        invariant out == Pick(bucket[..i], p)
      {
        assert bucket[..i + 1] == bucket[..i] + [bucket[i]];
        PickJoin(bucket[..i], [bucket[i]], p);
        assert [bucket[i]][1..] == [];
        if bucket[i].uniqueSqlID == uniqueSqlID { out := out + [bucket[i]]; }
      }
      assert bucket[..|bucket|] == bucket;
      PickSame(bucket, p, (x: SqlInfo) => x.uniqueSqlID == uniqueSqlID);
    }
  }

  lemma {:induction false} PickMembers(log: seq<SqlInfo>, p: SqlInfo -> bool)
    ensures forall x :: x in Pick(log, p) <==> x in log && p(x)
  {
    if log != [] { PickMembers(log[1..], p); }
  }

  /** Every bucket holds samples of its own snapshot that were persisted. */
  ghost predicate Filed(buckets: map<SnapID, seq<SqlInfo>>, log: seq<SqlInfo>) {
    forall id, x :: id in buckets && x in buckets[id] ==> x.snapID == id && x in log
  }

  lemma {:induction false} StoreFiled(log: seq<SqlInfo>, capacity: int)
    ensures Filed(Store(log, capacity), log)
  {
    if log != [] {
      var rest, last := log[..|log| - 1], log[|log| - 1];
      assert log == rest + [last];
      StoreFiled(rest, capacity);
    }
  }

  /** Whatever the capacity, an answer only holds samples of the window that were persisted and whose bucket is there. */
  lemma {:induction false} FromBucketsSound(
      buckets: map<SnapID, seq<SqlInfo>>, log: seq<SqlInfo>, keys: seq<SnapID>, scope: int, target: int, uniqueSqlID: int)
    requires Filed(buckets, log) && forall k :: k in keys ==> k in buckets
    ensures forall x :: x in FromBuckets(buckets, keys, scope, target, uniqueSqlID) ==>
              x in log && x.snapID in buckets && InWindow(scope, target, x.snapID) && x.uniqueSqlID == uniqueSqlID
  {
    if keys != [] {
      var rest, k := keys[..|keys| - 1], keys[|keys| - 1];
      FromBucketsSound(buckets, log, rest, scope, target, uniqueSqlID);
      BucketSound(buckets, log, k, uniqueSqlID);
      hide Filed, Matching;
    }
  }

  lemma BucketSound(buckets: map<SnapID, seq<SqlInfo>>, log: seq<SqlInfo>, k: SnapID, uniqueSqlID: int)
    requires Filed(buckets, log) && k in buckets
    ensures forall x :: x in Matching(buckets[k], uniqueSqlID) ==>
              x in log && x.snapID == k && x.uniqueSqlID == uniqueSqlID
  {
    PickMembers(buckets[k], (x: SqlInfo) => x.uniqueSqlID == uniqueSqlID);
  }

  // ---- which settings are enough ----

  /** With an empty window there is nothing to answer. */
  lemma {:induction false} EmptyWindow(
      buckets: map<SnapID, seq<SqlInfo>>, keys: seq<SnapID>, scope: int, target: int, uniqueSqlID: int)
    requires scope <= 0 && forall k :: k in keys ==> k in buckets
    ensures FromBuckets(buckets, keys, scope, target, uniqueSqlID) == []
  {
    if keys != [] { EmptyWindow(buckets, keys[..|keys| - 1], scope, target, uniqueSqlID); }
  }

  predicate Enough(capacity: int, scope: int) { scope <= 0 || capacity >= scope + 2 }

  /** The store's answer is the log's, for a chronological log and a target no smaller than any of its ids. */
  lemma EnoughAnswers(
      log: seq<SqlInfo>, capacity: int, keys: seq<SnapID>, scope: int, target: int, uniqueSqlID: int)
    requires Enough(capacity, scope) && Chronological(log) && forall x :: x in log ==> x.snapID <= target
    requires Enumerates(keys, Store(log, capacity))
    ensures FromBuckets(Store(log, capacity), keys, scope, target, uniqueSqlID) == FromLog(log, scope, target, uniqueSqlID)
  {
    hide FromBuckets, Chronological, Store;
    if scope <= 0 {
      EmptyWindow(Store(log, capacity), keys, scope, target, uniqueSqlID);
      PickNone(log, (x: SqlInfo) => target - scope <= x.snapID <= target - 1 && x.uniqueSqlID == uniqueSqlID);
    } else {
      StoreRetains(log, capacity);
      AnswersLikeLog(Store(log, capacity), log, capacity, keys, scope, target, uniqueSqlID);
    }
  }

  /** One sample of each of the snapshots 0 to n - 1. */
  function Ladder(n: nat): seq<SqlInfo>
    requires n <= MAX_INT64 + 1
  {
    if n == 0 then [] else Ladder(n - 1) + [SqlInfo(n - 1, 0, 0)]
  }

  lemma {:induction false} LadderIds(n: nat)
    requires n <= MAX_INT64 + 1
    ensures |Ladder(n)| == n && Chronological(Ladder(n))
    ensures forall i :: 0 <= i < n ==> Ladder(n)[i] == SqlInfo(i, 0, 0)
  {
    if n > 0 { LadderIds(n - 1); }
  }

  lemma LadderStep(n: nat) returns (info: SqlInfo)
    requires 0 < n <= MAX_INT64 + 1
    ensures info.snapID == n - 1 && Ladder(n) == Ladder(n - 1) + [info]
  {
    info := SqlInfo(n - 1, 0, 0);
  }

  lemma NoLadder(capacity: int)
    ensures Store(Ladder(0), capacity) == map[]
  {
  }

  /** As long as snapshot 0 is kept, nothing was dropped. */
  lemma {:induction false} LadderStore(n: nat, capacity: int)
    requires n <= MAX_INT64 + 1
    ensures var buckets := Store(Ladder(n), capacity);
            && (forall k :: k in buckets ==> 0 <= k < n)
            && (0 in buckets ==> |buckets| == n) && (n == 0 ==> buckets == map[])
  {
    hide *;
    if n == 0 {
      NoLadder(capacity);
    } else {
      var info := LadderStep(n);
      LadderStore(n - 1, capacity);
      StoreStep(Ladder(n - 1), info, capacity);
      NextStep(Store(Ladder(n - 1), capacity), n - 1, capacity, info);
    }
  }

  lemma NextStep(was: map<SnapID, seq<SqlInfo>>, n: nat, capacity: int, info: SqlInfo)
    requires (forall k :: k in was ==> 0 <= k < n) && (0 in was ==> |was| == n)
    requires n == 0 ==> was == map[]
    requires info.snapID == n
    ensures var after := Appended(Kept(was, capacity), info);
            (forall k :: k in after ==> 0 <= k < n + 1) && (0 in after ==> |after| == n + 1)
  {
    hide Appended, Kept;
    ZeroKept(was, capacity);
    AppendedSize(Kept(was, capacity), info);
    if n == 0 { assert |Kept(was, capacity)| == 0; }
  }

  /** An eviction takes the smallest id, so what spares 0 spares all. */
  lemma ZeroKept(was: map<SnapID, seq<SqlInfo>>, capacity: int)
    requires forall k :: k in was ==> 0 <= k
    ensures var kept := Kept(was, capacity);
            && (forall k :: k in kept ==> k in was) && (0 in kept ==> kept == was)
            && (0 in was && |was| >= capacity ==> 0 !in kept)
  {
    var kept := Kept(was, capacity);
    if |was| >= capacity && was.Keys != {} {
      var k :| Oldest(was, k) && kept == was - {k};
    }
  }

  lemma AppendedSize(kept: map<SnapID, seq<SqlInfo>>, info: SqlInfo)
    ensures var after := Appended(kept, info);
            && (forall k :: k in after <==> k in kept || k == info.snapID)
            && |after| == if info.snapID in kept then |kept| else |kept| + 1
  {
    var after := Appended(kept, info);
    assert after.Keys == kept.Keys + {info.snapID};
    KeysGrow(kept, after, info.snapID);
  }

  /** Snapshots 0 to `scope`, and a second sample of the last one. */
  function Steps(scope: nat): seq<SqlInfo>
    requires scope <= MAX_INT64
  {
    Ladder(scope + 1) + [SqlInfo(scope, 0, 1)]
  }

  lemma StepsLog(scope: nat)
    requires 0 < scope <= MAX_INT64
    ensures Chronological(Steps(scope)) && forall x :: x in Steps(scope) ==> x.snapID <= scope
    ensures SqlInfo(0, 0, 0) in FromLog(Steps(scope), scope, scope, 0)
  {
    LadderIds(scope + 1);
    assert Steps(scope)[0] == SqlInfo(0, 0, 0);
    PickMembers(Steps(scope), (x: SqlInfo) => scope - scope <= x.snapID <= scope - 1 && x.uniqueSqlID == 0);
  }

  /** With less room, that log loses the first snapshot of the window. */
  lemma FirstDropped(capacity: int, scope: nat)
    requires 0 < scope <= MAX_INT64 && capacity <= scope + 1
    ensures 0 !in Store(Steps(scope), capacity)
  {
    hide Ladder, Store, Kept, Appended;
    var info := SqlInfo(scope, 0, 1);
    assert Steps(scope) == Ladder(scope + 1) + [info];
    hide *;
    LadderStore(scope + 1, capacity);
    StoreStep(Ladder(scope + 1), info, capacity);
    LastStep(Store(Ladder(scope + 1), capacity), scope, capacity, info);
  }

  lemma LastStep(was: map<SnapID, seq<SqlInfo>>, scope: nat, capacity: int, info: SqlInfo)
    requires (forall k :: k in was ==> 0 <= k) && (0 in was ==> |was| == scope + 1)
    requires info.snapID == scope > 0 && capacity <= scope + 1
    ensures 0 !in Appended(Kept(was, capacity), info)
  {
    hide Appended, Kept;
    ZeroKept(was, capacity);
    AppendedSize(Kept(was, capacity), info);
  }

  /** With less room, every way of asking for that window gets a wrong answer. */
  lemma LessIsNotEnough(capacity: int, scope: nat, keys: seq<SnapID>)
    requires scope <= MAX_INT64 && !Enough(capacity, scope) && Enumerates(keys, Store(Steps(scope), capacity))
    ensures FromBuckets(Store(Steps(scope), capacity), keys, scope, scope, 0) != FromLog(Steps(scope), scope, scope, 0)
  {
    hide Store, FromLog;
    StepsLog(scope);
    FirstDropped(capacity, scope);
    StoreFiled(Steps(scope), capacity);
    FromBucketsSound(Store(Steps(scope), capacity), Steps(scope), keys, scope, scope, 0);
  }

  /** Every chronological log is answered from, whatever is asked with a target no smaller than its ids. */
  ghost predicate AnswersAll(capacity: int, scope: int) {
    forall log: seq<SqlInfo>, keys: seq<SnapID>, target: int, uniqueSqlID: int ::
      Chronological(log) && (forall x :: x in log ==> x.snapID <= target) && Enumerates(keys, Store(log, capacity)) ==>
        FromBuckets(Store(log, capacity), keys, scope, target, uniqueSqlID) == FromLog(log, scope, target, uniqueSqlID)
  }

  /** The settings under which the store answers like the log are exactly these. */
  lemma EnoughExactly(capacity: int, scope: Int64)
    ensures AnswersAll(capacity, scope) <==> Enough(capacity, scope)
  {
    hide Chronological, Store, FromBuckets, FromLog, Rising;
    if Enough(capacity, scope) {
      forall log: seq<SqlInfo>, keys: seq<SnapID>, target: int, uniqueSqlID: int
        | Chronological(log) && (forall x :: x in log ==> x.snapID <= target) && Enumerates(keys, Store(log, capacity))
        ensures FromBuckets(Store(log, capacity), keys, scope, target, uniqueSqlID) == FromLog(log, scope, target, uniqueSqlID)
      {
        EnoughAnswers(log, capacity, keys, scope, target, uniqueSqlID);
      }
    } else {
      var keys := KeysExist(Store(Steps(scope), capacity));
      StepsLog(scope);
      LessIsNotEnough(capacity, scope, keys);
    }
  }

  lemma KeysExist(m: map<SnapID, seq<SqlInfo>>) returns (keys: seq<SnapID>)
    ensures Enumerates(keys, m)
    decreases |m|
  {
    if m.Keys == {} {
      keys := [];
    } else {
      OldestExists(m);
      var k :| Oldest(m, k);
      assert (m - {k}).Keys == m.Keys - {k};
      var rest := KeysExist(m - {k});
      keys := [k] + rest;
      forall j | 0 < j < |keys| ensures k < keys[j] {
        assert keys[j] in rest && keys[j] in m - {k};
      }
      forall j ensures j in keys <==> j in m {
        assert j in m <==> j == k || j in m - {k};
      }
    }
  }
}
