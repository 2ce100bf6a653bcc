/** Resumable loading and calibration of the benchmark tables (internal/gsbench/dataset.go:505-619, 734-753, 835-966). */
module Dataset {
  import opened Common

  const PROSPECTIVE_SIZE_FACTOR: int := 2

  datatype TableBatch = TableBatch(table: string, rows: int, batchSize: int, weightPercent: int, estimatedRowBytes: int)

  datatype Plan = Plan(estimatedBytes: int, batches: seq<TableBatch>)

  /** What planning guarantees of a batch description. */
  ghost predicate Planned(t: TableBatch) {
    t.rows >= 0 && t.batchSize >= 1 && t.weightPercent >= 0 && t.estimatedRowBytes >= 1
  }

  /**
   * What the database answers to call number `k`: whether there is capacity, how a batch commits, how
   * its mark is recorded where that is a call of its own, whether a size sample and a high-water read
   * succeed, and by how many bytes `n` rows of a table make the dataset grow.
   */
  datatype Oracle = Oracle(
    capacity: nat -> bool, commit: nat -> Reply, record: nat -> Reply, sample: nat -> bool, read: nat -> bool,
    growth: (nat, TableBatch, nat) -> nat
  )

  /** No row grows the dataset by more than twice its estimate. */
  ghost predicate Modest(o: Oracle) {
    forall k, t, n :: o.growth(k, t, n) <= PROSPECTIVE_SIZE_FACTOR * t.estimatedRowBytes * n
  }

  ghost predicate SamplesSucceed(o: Oracle) { forall k :: o.sample(k) }

  /** `n` consecutive ids. */
  function Ids(from: int, n: nat): seq<int> {
    if n == 0 then [] else Ids(from, n - 1) + [from + n - 1]
  }

  lemma {:induction false} IdsJoin(from: int, m: nat, n: nat)
    ensures Ids(from, m) + Ids(from + m, n) == Ids(from, m + n)
  {
    if n > 0 {
      IdsJoin(from, m, n - 1);
      assert Ids(from, m) + (Ids(from + m, n - 1) + [from + m + n - 1])
          == (Ids(from, m) + Ids(from + m, n - 1)) + [from + m + n - 1];
    }
  }

  /** Where the batch after a committed one starts. */
  function NextBatchStart(committedEnd: int, targetRows: int): Option<int> {
    if committedEnd >= targetRows then None else Some(committedEnd + 1)
  }

  /** The ids of a batch and of the one after it are the ids of the whole range: none is left out or repeated. */
  lemma BatchesFollow(start: int, end: int, next: int, last: int, rows: int)
    requires start <= end < next <= last && NextBatchStart(end, rows) == Some(next)
    ensures Ids(start, end - start + 1) + Ids(next, last - next + 1) == Ids(start, last - start + 1)
  {
    IdsJoin(start, end - start + 1, last - next + 1);
  }

  /** Exactly the ids from the first to the last, each once. */
  lemma {:induction false} IdsOnce(from: int, n: nat)
    ensures |Ids(from, n)| == n && forall i :: 0 <= i < n ==> Ids(from, n)[i] == from + i
  {
    if n > 0 { IdsOnce(from, n - 1); }
  }

  lemma Quotient(x: int, d: int, n: int)
    requires d >= 1 && n <= x / d
    ensures d * n <= x
  {
    var q := x / d;
    assert x == d * q + x % d;
    Scale(d, n, q);
  }

  lemma Scale(d: int, a: int, b: int)
    requires d >= 0 && a <= b
    ensures d * a <= d * b
  {
  }

  type Rows = map<string, seq<int>>

  type Marks = map<string, nat>

  function RowsOf(rows: Rows, table: string): seq<int> { if table in rows then rows[table] else [] }

  function MarkOf(high: Marks, table: string): nat { if table in high then high[table] else 0 }

  /** Rows went in without their mark. */
  predicate Ahead(rows: Rows, high: Marks, table: string) { MarkOf(high, table) < |RowsOf(rows, table)| }

  /** A table whose rows are ahead of its mark stays as it is, and atomic commits leave no other table so. */
  ghost predicate Stays(atomic: bool, rows: Rows, high: Marks, rows': Rows, high': Marks) {
    forall t :: if Ahead(rows, high, t) then RowsOf(rows', t) == RowsOf(rows, t) && MarkOf(high', t) == MarkOf(high, t)
                else atomic ==> !Ahead(rows', high', t)
  }

  /** No other table than this one changes. */
  ghost predicate OthersSame(table: string, rows: Rows, high: Marks, rows': Rows, high': Marks) {
    forall t :: t != table ==> RowsOf(rows', t) == RowsOf(rows, t) && MarkOf(high', t) == MarkOf(high, t)
  }

  lemma StaysJoin(atomic: bool, r0: Rows, h0: Marks, r1: Rows, h1: Marks, r2: Rows, h2: Marks)
    ensures Stays(atomic, r0, h0, r0, h0)
    ensures Stays(atomic, r0, h0, r1, h1) && Stays(atomic, r1, h1, r2, h2) ==> Stays(atomic, r0, h0, r2, h2)
  {
    hide RowsOf, MarkOf;
  }

  /** The database: the ids inserted into each table, its high-water mark, and the size of it all. */
  class Store {
    var rows: Rows
    var high: Marks
    var size: nat
    /** Whether a batch and its high-water mark commit together. */
    const atomic: bool

    constructor (atomic: bool)
      ensures rows == map[] && high == map[] && size == 0 && this.atomic == atomic
    {
      rows, high, size := map[], map[], 0;
      this.atomic := atomic;
    }

    function High(table: string): nat
      reads this`high
    {
      MarkOf(high, table)
    }

    function Rows(table: string): seq<int>
      reads this`rows
    {
      RowsOf(rows, table)
    }

    /** Every table holds exactly the ids 1 up to its high-water mark, each once. */
    ghost predicate Loaded()
      reads this`rows, this`high
    {
      forall t :: Rows(t) == Ids(1, High(t))
    }

    /** Every table holds consecutive ids from 1 on, each once, and its mark is not ahead of them. */
    ghost predicate Keyed()
      reads this`rows, this`high
    {
      forall t :: Rows(t) == Ids(1, |Rows(t)|) && High(t) <= |Rows(t)|
    }

    /** Rows went in without their mark. */
    predicate Stuck(table: string)
      reads this`rows, this`high
    {
      Ahead(rows, high, table)
    }

    lemma LoadedIsKeyed()
      ensures Loaded() <==> Keyed() && forall t :: !Stuck(t)
    {
      forall t ensures Rows(t) == Ids(1, High(t)) <==> Rows(t) == Ids(1, |Rows(t)|) && High(t) == |Rows(t)| {
        IdsOnce(1, High(t));
      }
      hide Ids;
      assert forall t :: High(t) == |Rows(t)| <==> High(t) <= |Rows(t)| && !Stuck(t);
    }

    /** INSERT of a range of ids; the primary key refuses it as a whole when one of them is there. */
    method Insert(table: TableBatch, start: int, end: int, grown: nat) returns (ok: bool)
      requires start <= end + 1
      modifies this`rows, this`size
      ensures ok <==> forall i :: start <= i <= end ==> i !in old(Rows(table.table))
      ensures rows == if ok then old(rows)[table.table := old(Rows(table.table)) + Ids(start, end - start + 1)]
                      else old(rows)
      ensures size == if ok then old(size) + grown else old(size)
    {
      var present := Rows(table.table);
      if exists i :: start <= i <= end && i in present { return false; }
      rows := rows[table.table := present + Ids(start, end - start + 1)];
      size := size + grown;
      ok := true;
    }

    /** What an insertion right after the mark does to consecutive ids. */
    lemma NextIds(table: string, start: int, end: int)
      requires Keyed() && start == High(table) + 1 <= end
      ensures (forall i :: start <= i <= end ==> i !in Rows(table)) <==> !Stuck(table)
      ensures !Stuck(table) ==> Rows(table) + Ids(start, end - start + 1) == Ids(1, end)
    {
      IdsOnce(1, |Rows(table)|);
      assert Rows(table) == Ids(1, |Rows(table)|);
      if Stuck(table) {
        assert Rows(table)[start - 1] == start && start in Rows(table);
      } else {
        assert forall k :: 0 <= k < |Rows(table)| ==> Rows(table)[k] < start;
        IdsJoin(1, start - 1, end - start + 1);
      }
    }
  }

  class DatasetManager {
    const store: Store
    const plan: Plan
    var physical: int
    var inspectPhysical: bool
    var stopOptional: bool
    var changedTables: set<string>
    /** The calls made so far. */
    var calls: nat

    constructor (store: Store, plan: Plan, inspectPhysical: bool)
      ensures this.store == store && this.plan == plan && this.inspectPhysical == inspectPhysical
      ensures physical == 0 && !stopOptional && changedTables == {} && calls == 0
    {
      this.store, this.plan, this.inspectPhysical := store, plan, inspectPhysical;
      physical, stopOptional, changedTables, calls := 0, false, {}, 0;
    }

    /** What the size is known to be while samples succeed. */
    ghost predicate Measured()
      reads this`physical, this`inspectPhysical, store`size
    {
      inspectPhysical ==> physical == store.size
    }

    /**
     * Inserts the next rows of a table. With atomic commits they come with their high-water mark or not at
     * all; otherwise the mark may be left behind, and from then on the table takes no further batch.
     */
    method ApplyDatasetBatch(o: Oracle, table: TableBatch, start: int, end: int) returns (ok: bool)
      requires store.Keyed() && start == store.High(table.table) + 1 <= end
      modifies this`calls, store
      ensures store.Keyed() && Kept() && calls == old(calls) + 1
      ensures old(store.Stuck(table.table)) ==> !ok && unchanged(store)
      ensures store.High(table.table) == end || (!ok && store.high == old(store.high))
      ensures ok ==> store.High(table.table) == end && !store.Stuck(table.table)
      ensures OthersSame(table.table, old(store.rows), old(store.high), store.rows, store.high)
      ensures store.size == old(store.size)
              || store.size == old(store.size) + o.growth(old(calls), table, end - start + 1)
    {
      hide Ids;
      var k := calls;
      calls := calls + 1;
      if !o.capacity(k) { return false; }
      var grown := o.growth(k, table, end - start + 1);
      if store.atomic {
        ok := ApplyAtomicBatch(table, start, end, grown, o.commit(k));
      } else {
        ok := ApplyPlainBatch(table, start, end, grown, o.commit(k), o.record(k));
      }
    }

    method ApplyAtomicBatch(table: TableBatch, start: int, end: int, grown: nat, commit: Reply) returns (ok: bool)
      requires store.Keyed() && start == store.High(table.table) + 1 <= end
      modifies store
      ensures store.Keyed()
      ensures if commit == Lost || old(store.Stuck(table.table)) then !ok && unchanged(store)
              else (ok <==> commit == Done) && store.High(table.table) == end == |store.Rows(table.table)|
                   && store.size == old(store.size) + grown
      ensures OthersSame(table.table, old(store.rows), old(store.high), store.rows, store.high)
    {
      store.NextIds(table.table, start, end);
      IdsOnce(1, end);
      hide Ids;
      if commit == Lost { return false; }
      ok := store.Insert(table, start, end, grown);
      if !ok { return; }
      store.high := store.high[table.table := end];
      OthersKeyed(table.table);
      ok := commit == Done;
    }

    twostate lemma OthersKeyed(table: string)
      requires old(store.Keyed())
      requires store.Rows(table) == Ids(1, |store.Rows(table)|) && store.High(table) <= |store.Rows(table)|
      requires OthersSame(table, old(store.rows), old(store.high), store.rows, store.high)
      ensures store.Keyed()
    {
      hide Ids;
    }

    /**
     * Without atomic commits the rows and their mark are two calls: a whole table is whole again exactly
     * when both took effect or neither did.
     */
    method ApplyPlainBatch(table: TableBatch, start: int, end: int, grown: nat, insert: Reply, record: Reply)
      returns (ok: bool)
      requires store.Keyed() && start == store.High(table.table) + 1 <= end
      modifies store
      ensures store.Keyed()
      ensures if insert == Lost || old(store.Stuck(table.table)) then !ok && unchanged(store)
              else
                && (ok <==> insert == Done && record == Done) && |store.Rows(table.table)| == end
                && store.High(table.table) == (if insert == Done && record != Lost then end else start - 1)
                && store.size == old(store.size) + grown
      ensures store.high == old(store.high) || store.High(table.table) == end
      ensures OthersSame(table.table, old(store.rows), old(store.high), store.rows, store.high)
    {
      store.NextIds(table.table, start, end);
      IdsOnce(1, end);
      hide Ids;
      if insert == Lost { return false; }
      ok := store.Insert(table, start, end, grown);
      if !ok { return; }
      if insert == Done && record != Lost { store.high := store.high[table.table := end]; }
      OthersKeyed(table.table);
      ok := insert == Done && record == Done;
    }

    method DatasetSize(o: Oracle)
      modifies this`calls, this`physical, this`inspectPhysical
      ensures calls == old(calls) + 1
      ensures o.sample(old(calls)) ==> inspectPhysical == old(inspectPhysical) && physical == store.size
      ensures !o.sample(old(calls)) ==> !inspectPhysical && physical == old(physical)
    {
      if o.sample(calls) { physical := store.size; } else { inspectPhysical := false; }
      calls := calls + 1;
    }

    /**
     * The dataset stays within `bound`, the target or what it started from, provided sizes are
     * known and rows keep to twice their estimate.
     */
    ghost predicate WithinTarget(o: Oracle, bound: int)
      reads this`inspectPhysical, store`size
    {
      && plan.estimatedBytes <= bound
      && (inspectPhysical && SamplesSucceed(o) && Modest(o) ==> store.size <= bound)
    }

    /** The last row of the next batch, or None when the remaining bytes leave no room for a row. */
    function BatchEnd(table: TableBatch, start: int): (end: Option<int>)
      requires Planned(table) && 1 <= start <= table.rows
      requires inspectPhysical ==> physical < plan.estimatedBytes
      reads this
      ensures end.Some? ==> start <= end.value <= table.rows && end.value - start + 1 <= table.batchSize
      ensures end.Some? && inspectPhysical ==>
                PROSPECTIVE_SIZE_FACTOR * table.estimatedRowBytes * (end.value - start + 1) <= plan.estimatedBytes - physical
    {
      var full := if table.batchSize - 1 < table.rows - start then start + table.batchSize - 1 else table.rows;
      if !inspectPhysical then Some(full)
      else
        var cost := table.estimatedRowBytes * PROSPECTIVE_SIZE_FACTOR;
        var room := (plan.estimatedBytes - physical) / cost;
        if room <= 0 then None
        else
          var end := if full - start + 1 > room then start + room - 1 else full;
          Quotient(plan.estimatedBytes - physical, cost, end - start + 1);
          Some(end)
    }

    predicate NearTarget()
      reads this
    {
      physical >= plan.estimatedBytes || physical * 100 >= plan.estimatedBytes * 95
    }

    twostate predicate Kept()
      reads store
    {
      Stays(store.atomic, old(store.rows), old(store.high), store.rows, store.high)
    }

    /** One batch: committed, then measured. */
    method LoadBatch(o: Oracle, table: TableBatch, start: int, end: int, ghost bound: int) returns (ok: bool)
      requires store.Keyed() && Measured() && start == store.High(table.table) + 1 && start <= end
      requires WithinTarget(o, bound)
      requires inspectPhysical ==>
                 PROSPECTIVE_SIZE_FACTOR * table.estimatedRowBytes * (end - start + 1) <= plan.estimatedBytes - physical
      modifies this, store
      ensures store.Keyed() && Kept() && WithinTarget(o, bound) && (ok ==> Measured())
      ensures store.High(table.table) == end || (!ok && store.High(table.table) == start - 1)
      ensures old(store.Stuck(table.table)) ==> !ok && store.rows == old(store.rows) && store.high == old(store.high)
      ensures ok ==> store.High(table.table) == end
      ensures forall t :: t != table.table ==> store.High(t) == old(store.High(t))
      ensures (inspectPhysical ==> old(inspectPhysical)) && (SamplesSucceed(o) ==> inspectPhysical == old(inspectPhysical))
      ensures stopOptional == old(stopOptional)
    {
      hide Ids;
      ok := ApplyDatasetBatch(o, table, start, end);
      if !ok { return; }
      changedTables := changedTables + {table.table};
      if inspectPhysical { DatasetSize(o); }
    }

    /**
     * Loads one table from its high-water mark on. It gains at most its planned rows; it stops
     * short only for the size target, which it does not pass.
     */
    method LoadTable(o: Oracle, table: TableBatch, ghost bound: int) returns (ok: bool)
      requires store.Keyed() && Measured() && Planned(table) && WithinTarget(o, bound)
      modifies this, store
      ensures store.Keyed() && Kept() && WithinTarget(o, bound) && (ok ==> Measured())
      ensures old(store.High(table.table)) <= store.High(table.table) <= Max(old(store.High(table.table)), table.rows)
      ensures forall t :: t != table.table ==> store.High(t) == old(store.High(t))
      ensures (inspectPhysical ==> old(inspectPhysical)) && (SamplesSucceed(o) ==> inspectPhysical == old(inspectPhysical))
      ensures ok && !stopOptional ==> store.High(table.table) >= table.rows
      ensures old(store.Stuck(table.table)) ==> store.rows == old(store.rows) && store.high == old(store.high)
      ensures old(!inspectPhysical && !stopOptional) ==> !stopOptional
      ensures old(stopOptional) ==> stopOptional
    {
      hide SamplesSucceed, Modest, Ids, Stays, Ahead, MarkOf, Store.Keyed, Measured, WithinTarget;
      ghost var rows0, high0 := store.rows, store.high;
      StaysJoin(store.atomic, rows0, high0, rows0, high0, rows0, high0);
      var k := calls;
      calls := calls + 1;
      if !o.read(k) { return false; }
      var high := store.High(table.table);
      if high >= table.rows { return true; }
      if table.weightPercent > 0 && stopOptional { return true; }
      var start := high + 1;
      while start <= table.rows
        invariant store.Keyed() && Kept() && Measured() && WithinTarget(o, bound)
        invariant high + 1 <= start == store.High(table.table) + 1 <= table.rows + 1
        invariant forall t :: t != table.table ==> store.High(t) == old(store.High(t))
        invariant (inspectPhysical ==> old(inspectPhysical)) && (SamplesSucceed(o) ==> inspectPhysical == old(inspectPhysical))
        invariant old(!inspectPhysical && !stopOptional) ==> !stopOptional
        invariant old(stopOptional) ==> stopOptional
        invariant old(store.Stuck(table.table)) ==> store.rows == old(store.rows) && store.high == old(store.high)
        decreases table.rows - start
      {
        if inspectPhysical && (physical >= plan.estimatedBytes || (table.weightPercent > 0 && NearTarget())) {
          stopOptional := true;
          break;
        }
        var end := BatchEnd(table, start);
        if end.None? {
          stopOptional := true;
          break;
        }
        ghost var rows1, high1 := store.rows, store.high;
        ok := LoadBatch(o, table, start, end.value, bound);
        StaysJoin(store.atomic, rows0, high0, rows1, high1, store.rows, store.high);
        if !ok { return; }
        if inspectPhysical && NearTarget() { stopOptional := true; }
        var next := NextBatchStart(end.value, table.rows);
        if next.None? { break; }
        start := next.value;
      }
      ok := true;
    }

    /** Tables without a weight come first when sizes are measured. */
    function LoadOrder(): (order: seq<TableBatch>)
      reads this
    {
      if inspectPhysical then Weightless(plan.batches) + Weighted(plan.batches) else plan.batches
    }

    method LoadTables(o: Oracle, ghost bound: int) returns (ok: bool)
      requires store.Keyed() && Measured() && WithinTarget(o, bound)
      requires forall t :: t in plan.batches ==> Planned(t)
      modifies this, store
      ensures store.Keyed() && Kept() && WithinTarget(o, bound) && (ok ==> Measured())
      ensures (inspectPhysical ==> old(inspectPhysical)) && (SamplesSucceed(o) ==> inspectPhysical == old(inspectPhysical))
      ensures forall t :: store.High(t) >= old(store.High(t))
      ensures ok && !stopOptional ==> forall t :: t in plan.batches ==> store.High(t.table) >= t.rows
      ensures old(!inspectPhysical) ==> (ok ==> forall t :: t in plan.batches ==> store.High(t.table) >= t.rows)
    {
      hide SamplesSucceed, Modest, Ids, Planned, Weightless, Weighted, Stays, Ahead, Store.Keyed;
      ghost var rows0, high0 := store.rows, store.high;
      StaysJoin(store.atomic, rows0, high0, rows0, high0, rows0, high0);
      stopOptional := inspectPhysical && physical * 100 >= plan.estimatedBytes * 95;
      OrderHasAll(plan.batches);
      var batches := LoadOrder();
      for i := 0 to |batches|
        invariant store.Keyed() && Kept() && Measured() && WithinTarget(o, bound)
        invariant (inspectPhysical ==> old(inspectPhysical)) && (SamplesSucceed(o) ==> inspectPhysical == old(inspectPhysical))
        invariant forall t :: store.High(t) >= old(store.High(t))
        invariant !stopOptional ==> forall t :: t in batches[..i] ==> store.High(t.table) >= t.rows
        invariant old(!inspectPhysical) ==> !stopOptional
      {
        ghost var rows1, high1 := store.rows, store.high;
        ok := LoadTable(o, batches[i], bound);
        StaysJoin(store.atomic, rows0, high0, rows1, high1, store.rows, store.high);
        if !ok { return; }
        assert batches[..i + 1] == batches[..i] + [batches[i]];
      }
      assert batches[..|batches|] == batches;
      ok := true;
    }

    method SumWeights() returns (total: int)
      ensures total == TotalWeight(plan.batches)
    {
      total := 0;
      for i := 0 to |plan.batches|
        invariant total == TotalWeight(plan.batches[..i])
      {
        assert plan.batches[..i + 1][..i] == plan.batches[..i];
        if plan.batches[i].weightPercent > 0 { total := total + plan.batches[i].weightPercent; }
      }
      assert plan.batches[..|plan.batches|] == plan.batches;
    }

    /** How many rows a calibration step adds to a table; none when the remaining bytes leave no room. */
    function RowDeficit(table: TableBatch, deficit: int, totalWeight: int): (rows: int)
      requires Planned(table) && deficit > 0 && totalWeight > 0 && physical < plan.estimatedBytes
      reads this
      ensures rows <= table.batchSize
      ensures rows > 0 ==> PROSPECTIVE_SIZE_FACTOR * table.estimatedRowBytes * rows <= plan.estimatedBytes - physical
    {
      var share := deficit * table.weightPercent / totalWeight / table.estimatedRowBytes;
      var wanted := Min(table.batchSize, Max(1, share));
      var cost := table.estimatedRowBytes * PROSPECTIVE_SIZE_FACTOR;
      var room := (plan.estimatedBytes - physical) / cost;
      if room <= 0 then 0
      else
        Quotient(plan.estimatedBytes - physical, cost, Min(wanted, room));
        Min(wanted, room)
    }

    /** One table of a calibration round: rows beyond the high-water mark, at most what the target allows. */
    method CalibrateTable(o: Oracle, table: TableBatch, deficit: int, totalWeight: int, ghost bound: int) returns (ok: bool, done: bool)
      requires store.Keyed() && Measured() && Planned(table) && WithinTarget(o, bound)
      requires deficit > 0 && totalWeight > 0
      modifies this, store
      ensures store.Keyed() && Kept() && WithinTarget(o, bound) && (ok ==> Measured())
      ensures forall t :: store.High(t) >= old(store.High(t))
      ensures (inspectPhysical ==> old(inspectPhysical)) && (SamplesSucceed(o) ==> inspectPhysical == old(inspectPhysical))
      ensures (!done ==> ok && store.High(table.table) > old(store.High(table.table))) && stopOptional == old(stopOptional)
    {
      hide SamplesSucceed, Modest, Ids;
      if NearTarget() { return true, true; }
      var k := calls;
      calls := calls + 1;
      if !o.read(k) { return false, true; }
      var high := store.High(table.table);
      var rows := RowDeficit(table, deficit, totalWeight);
      if rows <= 0 { return true, true; }
      ok := LoadBatch(o, table, high + 1, high + rows, bound);
      done := !ok || !inspectPhysical;
    }

    method CalibrateRound(o: Oracle, deficit: int, totalWeight: int, ghost bound: int) returns (ok: bool)
      requires store.Keyed() && Measured() && WithinTarget(o, bound) && deficit > 0 && totalWeight > 0
      requires forall t :: t in plan.batches ==> Planned(t)
      modifies this, store
      ensures store.Keyed() && Kept() && WithinTarget(o, bound) && (ok ==> Measured())
      ensures forall t :: store.High(t) >= old(store.High(t))
      ensures stopOptional == old(stopOptional)
      ensures (inspectPhysical ==> old(inspectPhysical)) && (SamplesSucceed(o) ==> inspectPhysical == old(inspectPhysical))
    {
      hide SamplesSucceed, Modest, Ids, Planned, Stays, Ahead, Store.Keyed;
      ghost var rows0, high0 := store.rows, store.high;
      StaysJoin(store.atomic, rows0, high0, rows0, high0, rows0, high0);
      ok := true;
      for i := 0 to |plan.batches|
        invariant store.Keyed() && Kept() && Measured() && WithinTarget(o, bound) && ok
        invariant forall t :: store.High(t) >= old(store.High(t))
        invariant stopOptional == old(stopOptional)
        invariant (inspectPhysical ==> old(inspectPhysical)) && (SamplesSucceed(o) ==> inspectPhysical == old(inspectPhysical))
      {
        if plan.batches[i].weightPercent <= 0 { continue; }
        var done: bool;
        ghost var rows1, high1 := store.rows, store.high;
        ok, done := CalibrateTable(o, plan.batches[i], deficit, totalWeight, bound);
        StaysJoin(store.atomic, rows0, high0, rows1, high1, store.rows, store.high);
        if done { return; }
      }
    }

    /** At most three rounds while the dataset is below 90 percent of its target; the target is never passed. */
    method CalibrateDataset(o: Oracle, ghost bound: int) returns (ok: bool)
      requires store.Keyed() && Measured() && WithinTarget(o, bound) && inspectPhysical
      requires forall t :: t in plan.batches ==> Planned(t)
      modifies this, store
      ensures store.Keyed() && Kept() && WithinTarget(o, bound) && (ok ==> Measured())
      ensures forall t :: store.High(t) >= old(store.High(t))
      ensures (SamplesSucceed(o) ==> inspectPhysical == old(inspectPhysical)) && stopOptional == old(stopOptional)
      ensures old(physical * 100 >= plan.estimatedBytes * 90) ==> ok && unchanged(store)
    {
      hide SamplesSucceed, Modest, Ids, Planned, Stays, Ahead, Store.Keyed;
      ghost var rows0, high0 := store.rows, store.high;
      StaysJoin(store.atomic, rows0, high0, rows0, high0, rows0, high0);
      ok := true;
      var round := 1;
      while round <= 3 && inspectPhysical && physical * 100 < plan.estimatedBytes * 90
        invariant store.Keyed() && Kept() && Measured() && WithinTarget(o, bound) && ok
        invariant forall t :: store.High(t) >= old(store.High(t))
        invariant (SamplesSucceed(o) ==> inspectPhysical == old(inspectPhysical)) && stopOptional == old(stopOptional)
        invariant round >= 1 && (round == 1 ==> physical == old(physical) && unchanged(store))
        invariant round > 1 ==> old(physical * 100 < plan.estimatedBytes * 90)
        decreases 4 - round
      {
        var deficit := plan.estimatedBytes * 95 / 100 - physical;
        var totalWeight := SumWeights();
        if deficit <= 0 || totalWeight <= 0 { return; }
        ghost var rows1, high1 := store.rows, store.high;
        ok := CalibrateRound(o, deficit, totalWeight, bound);
        StaysJoin(store.atomic, rows0, high0, rows1, high1, store.rows, store.high);
        if !ok { return; }
        round := round + 1;
      }
    }

    /** Creating `n` indexes grows the dataset by whatever they take. */
    method BuildIndexes(o: Oracle, n: nat, grown: nat -> nat)
      requires store.Keyed() && Measured()
      modifies this, store`size
      ensures store.Keyed() && Kept() && Measured() && store.size == old(store.size) + Total(grown, n)
      ensures (inspectPhysical ==> old(inspectPhysical)) && (SamplesSucceed(o) ==> inspectPhysical == old(inspectPhysical))
      ensures stopOptional == old(stopOptional)
    {
      for i := 0 to n
        invariant store.Keyed() && Kept() && Measured() && store.size == old(store.size) + Total(grown, i)
        invariant (inspectPhysical ==> old(inspectPhysical)) && (SamplesSucceed(o) ==> inspectPhysical == old(inspectPhysical))
        invariant stopOptional == old(stopOptional)
      {
        store.size := store.size + grown(i);
        if inspectPhysical { DatasetSize(o); }
      }
    }

    /**
     * One run: measure, load, build indexes, calibrate. A table whose rows are ahead of its mark is never
     * loaded again: a run that needs more of it fails, unless the size target stops it first.
     */
    method Init(o: Oracle, indexes: nat, grown: nat -> nat) returns (ok: bool)
      requires store.Keyed() && forall t :: t in plan.batches ==> Planned(t)
      modifies this, store
      ensures store.Keyed() && Kept() && forall t :: store.High(t) >= old(store.High(t))
      ensures ok && (old(!inspectPhysical) || !stopOptional) ==>
                forall t :: t in plan.batches ==> store.High(t.table) >= t.rows
      ensures forall t :: t in plan.batches && old(store.Stuck(t.table) && store.High(t.table) < t.rows) ==>
                !ok || (stopOptional && old(inspectPhysical))
      ensures old(inspectPhysical) && SamplesSucceed(o) && Modest(o) ==>
                store.size <= Max(plan.estimatedBytes, old(store.size)) + Total(grown, indexes)
    {
      hide Modest, Ids, Planned, SamplesSucceed;
      if inspectPhysical { FirstSample(o); }
      ghost var bound := Max(plan.estimatedBytes, store.size);
      ghost var rows0, high0 := store.rows, store.high;
      ok := LoadTables(o, bound);
      if !ok { return; }
      ghost var rows1, high1 := store.rows, store.high;
      Complete(o, indexes, grown, bound);
      StaysJoin(store.atomic, rows0, high0, rows1, high1, store.rows, store.high);
    }

    method FirstSample(o: Oracle)
      modifies this`calls, this`physical, this`inspectPhysical
      ensures Measured() && (SamplesSucceed(o) ==> inspectPhysical == old(inspectPhysical))
      ensures inspectPhysical ==> old(inspectPhysical)
    {
      DatasetSize(o);
    }

    method Complete(o: Oracle, indexes: nat, grown: nat -> nat, ghost bound: int)
      requires store.Keyed() && Measured() && WithinTarget(o, bound)
      requires forall t :: t in plan.batches ==> Planned(t)
      modifies this, store
      ensures store.Keyed() && Kept() && WithinTarget(o, bound + Total(grown, indexes))
      ensures forall t :: store.High(t) >= old(store.High(t))
      ensures (SamplesSucceed(o) ==> inspectPhysical == old(inspectPhysical)) && stopOptional == old(stopOptional)
    {
      hide Modest, Ids, Planned, SamplesSucceed;
      BuildIndexes(o, indexes, grown);
      if inspectPhysical {
        // A failed calibration is reported and does not fail the run.
        var calibrated := CalibrateDataset(o, Max(bound + Total(grown, indexes), store.size));
      }
    }
  }

  /** What the first n indexes take. */
  function Total(grown: nat -> nat, n: nat): nat { if n == 0 then 0 else Total(grown, n - 1) + grown(n - 1) }

  datatype Attempt = Attempt(plan: Plan, o: Oracle, inspect: bool, indexes: nat, grown: nat -> nat)

  /**
   * Exactly-once loading: after any number of runs with any plans, each perhaps cut short by a
   * failure or a crash at any point, every table holds consecutive ids from 1 on, each once. With
   * atomic commits they end at the high-water mark; otherwise the mark may be left behind, and such
   * a table is then as it is for good.
   */
  method Run(store: Store, attempts: seq<Attempt>)
    requires store.Keyed()
    requires forall a, t :: a in attempts && t in a.plan.batches ==> Planned(t)
    modifies store
    ensures store.Keyed() && Stays(store.atomic, old(store.rows), old(store.high), store.rows, store.high)
    ensures forall t :: forall i :: 0 <= i < |store.Rows(t)| ==> store.Rows(t)[i] == i + 1
    ensures store.atomic && old(store.Loaded()) ==> store.Loaded() && forall t :: |store.Rows(t)| == store.High(t)
  {
    store.LoadedIsKeyed();
    hide Ids, Planned;
    ghost var rows, high := store.rows, store.high;
    StaysJoin(store.atomic, rows, high, rows, high, rows, high);
    for i := 0 to |attempts|
      invariant store.Keyed() && Stays(store.atomic, rows, high, store.rows, store.high)
    {
      ghost var rows', high' := store.rows, store.high;
      var a := attempts[i];
      assert a in attempts;
      var manager := new DatasetManager(store, a.plan, a.inspect);
      var ok := manager.Init(a.o, a.indexes, a.grown);
      StaysJoin(store.atomic, rows, high, rows', high', store.rows, store.high);
    }
    if store.atomic && old(store.Loaded()) {
      forall t ensures !store.Stuck(t) && |store.Rows(t)| == store.High(t) { assert !old(store.Stuck(t)); }
    }
    store.LoadedIsKeyed();
    forall t ensures forall i :: 0 <= i < |store.Rows(t)| ==> store.Rows(t)[i] == i + 1 {
      IdsOnce(1, |store.Rows(t)|);
    }
  }

  /**
   * The same from the beginning: on a fresh database every table ends with the ids from 1 on, each once,
   * and with atomic commits exactly up to its mark.
   */
  method RunFromEmpty(atomic: bool, attempts: seq<Attempt>) returns (store: Store)
    requires forall a, t :: a in attempts && t in a.plan.batches ==> Planned(t)
    ensures fresh(store) && store.Keyed() && (atomic ==> store.Loaded())
    ensures forall t :: forall i :: 0 <= i < |store.Rows(t)| ==> store.Rows(t)[i] == i + 1
    ensures atomic ==> forall t :: |store.Rows(t)| == store.High(t)
  {
    store := new Store(atomic);
    assert store.Loaded() && store.Keyed() by { store.LoadedIsKeyed(); }
    hide Planned, Ids;
    Run(store, attempts);
  }

  function TotalWeight(batches: seq<TableBatch>): int {
    if batches == [] then 0
    else TotalWeight(batches[..|batches| - 1]) + Max(0, batches[|batches| - 1].weightPercent)
  }

  function Weightless(batches: seq<TableBatch>): seq<TableBatch> {
    if batches == [] then []
    else (if batches[0].weightPercent == 0 then [batches[0]] else []) + Weightless(batches[1..])
  }

  function Weighted(batches: seq<TableBatch>): seq<TableBatch> {
    if batches == [] then []
    else (if batches[0].weightPercent > 0 then [batches[0]] else []) + Weighted(batches[1..])
  }

  lemma {:induction false} OrderHasAll(batches: seq<TableBatch>)
    requires forall t :: t in batches ==> Planned(t)
    ensures forall t :: t in batches <==> t in Weightless(batches) || t in Weighted(batches)
  {
    if batches != [] {
      var head, rest := batches[0], batches[1..];
      OrderHasAll(rest);
      assert batches == [head] + rest;
      assert head in batches && Planned(head);
      assert forall t :: t in Weightless(batches) <==> (head.weightPercent == 0 && t == head) || t in Weightless(rest);
      assert forall t :: t in Weighted(batches) <==> (head.weightPercent > 0 && t == head) || t in Weighted(rest);
    }
  }
}
