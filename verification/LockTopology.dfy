/** Layout of holder and waiter sessions over rows (internal/gsbench/lock_topology.go). */
module LockTopology {
  import opened Common
  import opened Text

  const LOCK_TARGET_ROWS: int := 10000
  const HOLDER: string := "blocker"

  /** What a session executes; only row updates of one table matter to the chain. */
  datatype Statement = UpdateRow(row: int) | AddColumn(column: string) | Sql(text: string)

  datatype Waiter = Waiter(
    tag: string, setup: seq<Statement>, wait: seq<Statement>, transactional: bool,
    blockerTag: string, branch: int, depth: int
  )

  datatype Edge = Edge(blockerTag: string, waiterTag: string, branch: int, depth: int)

  datatype Definition = Definition(
    code: int, holder: seq<Statement>, waiterSql: seq<Statement>, waiterTransactional: bool,
    waiters: seq<Waiter>, edges: seq<Edge>, branchLengths: seq<int>, sessions: int, depth: int
  )

  datatype LockConfig = LockConfig(
    rowChainSessions: int, rowChainDepth: int, tableExclusiveSessions: int, ddlWaitSessions: int
  )

  datatype ConfigError =
    | UnsafeSchema | UnsafeRunId | NotConfigurable | TooFewSessions | DepthOutOfRange | SessionsBelowDepth | TooManyRows

  // ---- arithmetic ----

  lemma DivMod(q: int, d: int, m: int)
    requires d >= 1 && 0 <= m < d
    ensures (q * d + m) / d == q && (q * d + m) % d == m
  {
    var x := q * d + m;
    assert x == d * (x / d) + x % d;
    assert d * (q - x / d) == x % d - m;
    if q - x / d >= 1 { Times(d, q - x / d); }
    if x / d - q >= 1 { Times(d, x / d - q); }
  }

  lemma Times(d: int, k: int)
    requires d >= 1 && k >= 1
    ensures d * k >= d
  {
  }

  lemma TimesMonotone(d: int, a: int, b: int)
    requires d >= 0 && a <= b
    ensures a * d <= b * d
  {
  }

  // ---- the closed form of the row chain ----

  function RowChainRequiredRows(sessions: int, depth: int): int
    requires depth >= 1
  {
    var waiters := sessions - 1;
    waiters + (waiters + depth - 1) / depth
  }

  function Branches(n: nat, d: int): int
    requires d >= 1
  {
    (n + d - 1) / d
  }

  /** The row waiter `i` owns; the row above it is its blocker's. */
  function RowOf(d: int, i: nat): int
    requires d >= 1
  {
    i + i / d + 2
  }

  function RootRow(d: int, branch: nat): int { branch * (d + 1) + 1 }

  function ChainTag(branch: nat, depth: nat): string { "chain-" + Itoa(branch) + "-" + Itoa(depth) }

  function TagOf(d: int, i: nat): string
    requires d >= 1
  {
    ChainTag(i / d + 1, i % d + 1)
  }

  function BlockerOf(d: int, i: nat): string
    requires d >= 1
  {
    if i % d == 0 then HOLDER else TagOf(d, i - 1)
  }

  function ChainWaiter(d: int, i: nat): Waiter
    requires d >= 1
  {
    Waiter(TagOf(d, i), [UpdateRow(RowOf(d, i))], [UpdateRow(RowOf(d, i) - 1)], true, BlockerOf(d, i), i / d + 1, i % d + 1)
  }

  function ChainEdge(d: int, i: nat): Edge
    requires d >= 1
  {
    Edge(BlockerOf(d, i), TagOf(d, i), i / d + 1, i % d + 1)
  }

  /** The coordinates of a waiter: `k` places down branch `b`, both counted from zero. */
  lemma Coordinates(d: int, b: nat, k: nat)
    requires 0 <= k < d
    ensures var i := b * d + k;
            && 0 <= i && i / d == b && i % d == k
            && RowOf(d, i) == i + b + 2 && TagOf(d, i) == ChainTag(b + 1, k + 1)
            && BlockerOf(d, i) == if k == 0 then HOLDER else ChainTag(b + 1, k)
  {
    DivMod(b, d, k);
    if k > 0 { DivMod(b, d, k - 1); }
  }

  // ---- the configuration loops ----

  /** One branch: a chain of `length` waiters below the row `nextRow - 1`. */
  method ConfigureBranch(d: int, branch: nat, length: nat, nextRow: int, waiters: seq<Waiter>, edges: seq<Edge>)
    returns (nextRow': int, waiters': seq<Waiter>, edges': seq<Edge>)
    requires branch >= 1 && 1 <= length <= d
    requires |waiters| == (branch - 1) * d && nextRow == |waiters| + branch + 1
    requires waiters == Chain(d, |waiters|) && edges == ChainEdges(d, |waiters|)
    ensures |waiters'| == |waiters| + length && nextRow' == nextRow + length
    ensures waiters' == Chain(d, |waiters'|) && edges' == ChainEdges(d, |waiters'|)
  {
    hide RowOf, TagOf, BlockerOf, ChainTag;
    nextRow', waiters', edges' := nextRow, waiters, edges;
    var blockerRow, blockerTag := nextRow - 1, HOLDER;
    for depth := 1 to length + 1
      invariant |waiters'| == |waiters| + depth - 1 && nextRow' == nextRow + depth - 1
      invariant waiters' == Chain(d, |waiters'|) && edges' == ChainEdges(d, |waiters'|)
      invariant blockerRow == nextRow' - 1
      invariant blockerTag == if depth == 1 then HOLDER else ChainTag(branch, depth - 1)
    {
      Coordinates(d, branch - 1, depth - 1);
      ghost var i := |waiters'|;
      var row := nextRow';
      nextRow' := nextRow' + 1;
      var tag := ChainTag(branch, depth);
      waiters' := waiters' + [Waiter(tag, [UpdateRow(row)], [UpdateRow(blockerRow)], true, blockerTag, branch, depth)];
      edges' := edges' + [Edge(blockerTag, tag, branch, depth)];
      assert ChainWaiter(d, i) == waiters'[i] && ChainEdge(d, i) == edges'[i];
      blockerRow := row;
      blockerTag := tag;
    }
  }

  function Chain(d: int, n: nat): (waiters: seq<Waiter>)
    requires d >= 1
    ensures |waiters| == n
  {
    seq(n, i requires 0 <= i => ChainWaiter(d, i))
  }

  function ChainEdges(d: int, n: nat): seq<Edge>
    requires d >= 1
  {
    seq(n, i requires 0 <= i => ChainEdge(d, i))
  }

  function Roots(d: int, n: nat): seq<Statement>
    requires d >= 1
  {
    seq(n, b requires 0 <= b => UpdateRow(RootRow(d, b)))
  }

  method ConfigureRowChainWaiters(definition: Definition, sessions: int, maxDepth: int) returns (r: Definition)
    requires sessions >= 1 && maxDepth >= 1
    requires definition.waiters == [] && definition.edges == [] && definition.branchLengths == []
    ensures r.waiters == Chain(maxDepth, sessions - 1) && r.edges == ChainEdges(maxDepth, sessions - 1)
    ensures Branches(sessions - 1, maxDepth) >= 0 && r.holder == Roots(maxDepth, Branches(sessions - 1, maxDepth))
    ensures |r.branchLengths| == |r.holder| && forall l :: l in r.branchLengths ==> 1 <= l <= maxDepth
    ensures r == definition.(waiters := r.waiters, edges := r.edges, holder := r.holder, branchLengths := r.branchLengths)
  {
    hide ChainWaiter, ChainEdge, Branches;
    ghost var n := sessions - 1;
    var holder: seq<Statement>, waiters: seq<Waiter>, edges: seq<Edge>, lengths: seq<int> := [], [], [], [];
    var remainingWaiters, nextRow, branch := sessions - 1, 1, 1;
    BranchCount(n, maxDepth, 0);
    while remainingWaiters > 0
      invariant remainingWaiters >= 0 && branch >= 1
      invariant |waiters| == n - remainingWaiters && (remainingWaiters > 0 ==> |waiters| == (branch - 1) * maxDepth)
      invariant remainingWaiters == 0 ==> branch - 1 == Branches(n, maxDepth)
      invariant remainingWaiters > 0 ==> nextRow == |waiters| + branch
      invariant waiters == Chain(maxDepth, |waiters|) && edges == ChainEdges(maxDepth, |waiters|)
      invariant holder == Roots(maxDepth, branch - 1) && |lengths| == |holder|
      invariant forall l :: l in lengths ==> 1 <= l <= maxDepth
      decreases remainingWaiters
    {
      var branchLength := if remainingWaiters < maxDepth then remainingWaiters else maxDepth;
      var rootRow := nextRow;
      nextRow := nextRow + 1;
      holder := holder + [UpdateRow(rootRow)];
      assert RootRow(maxDepth, branch - 1) == rootRow;
      lengths := lengths + [branchLength];
      nextRow, waiters, edges := ConfigureBranch(maxDepth, branch, branchLength, nextRow, waiters, edges);
      remainingWaiters := remainingWaiters - branchLength;
      BranchCount(n, maxDepth, branch);
      assert branch * maxDepth == (branch - 1) * maxDepth + maxDepth;
      branch := branch + 1;
    }
    r := definition.(holder := holder, waiters := waiters, edges := edges, branchLengths := lengths);
  }

  /** `b` branches of length `d` hold `n` waiters, the last one perhaps not in full. */
  lemma BranchCount(n: nat, d: int, b: nat)
    requires d >= 1
    ensures b * d - d < n <= b * d ==> Branches(n, d) == b
    ensures n == 0 ==> Branches(n, d) == 0
    ensures Branches(n, d) >= 0
  {
    if b * d - d < n <= b * d {
      assert n + d - 1 == b * d + (n + d - 1 - b * d);
      DivMod(b, d, n + d - 1 - b * d);
    }
    if n == 0 {
      DivMod(0, d, d - 1);
    }
  }

  /** Direct waiters: everyone waits for the holder; `wait(i)` is what the i-th one executes. */
  method ConfigureDirectWaiters(definition: Definition, sessions: int, wait: nat -> seq<Statement>) returns (r: Definition)
    requires sessions >= 1 && definition.waiters == [] && definition.edges == []
    ensures r == definition.(waiters := r.waiters, edges := r.edges)
    ensures |r.waiters| == |r.edges| == sessions - 1
    ensures forall i :: 0 <= i < sessions - 1 ==>
              && r.edges[i] == Edge(HOLDER, r.waiters[i].tag, i + 1, 1)
              && r.waiters[i] == Waiter("waiter-" + Itoa(i + 1), [], wait(i + 1), definition.waiterTransactional, HOLDER, i + 1, 1)
    ensures forall i, j :: 0 <= i < j < |r.waiters| ==> r.waiters[i].tag != r.waiters[j].tag
  {
    var waiters: seq<Waiter>, edges: seq<Edge> := [], [];
    for index := 1 to sessions
      invariant |waiters| == |edges| == index - 1
      invariant forall i :: 0 <= i < index - 1 ==>
                  && edges[i] == Edge(HOLDER, waiters[i].tag, i + 1, 1)
                  && waiters[i] == Waiter("waiter-" + Itoa(i + 1), [], wait(i + 1), definition.waiterTransactional, HOLDER, i + 1, 1)
    {
      var tag := "waiter-" + Itoa(index);
      waiters := waiters + [Waiter(tag, [], wait(index), definition.waiterTransactional, HOLDER, index, 1)];
      edges := edges + [Edge(HOLDER, tag, index, 1)];
    }
    forall i, j | 0 <= i < j < |waiters| ensures waiters[i].tag != waiters[j].tag {
      WaiterTagsDiffer(i + 1, j + 1);
    }
    r := definition.(waiters := waiters, edges := edges);
  }

  lemma WaiterTagsDiffer(a: nat, b: nat)
    requires a != b
    ensures "waiter-" + Itoa(a) != "waiter-" + Itoa(b)
  {
    if "waiter-" + Itoa(a) == "waiter-" + Itoa(b) {
      assert ("waiter-" + Itoa(a))[7..] == Itoa(a) && ("waiter-" + Itoa(b))[7..] == Itoa(b);
      ItoaInjective(a, b);
    }
  }

  // ---- tags and rows are distinct ----

  lemma {:induction false} NoDashInDigits(s: string, k: nat)
    requires AllDigits(s) && k < |s|
    ensures s[k] != '-'
  {
    if k < |s| - 1 { NoDashInDigits(s[..|s| - 1], k); }
  }

  lemma DashSplits(a: string, x: string, b: string, y: string)
    requires AllDigits(a) && AllDigits(b) && a + "-" + x == b + "-" + y
    ensures a == b && x == y
  {
    var s, t := a + "-" + x, b + "-" + y;
    assert s[|a|] == '-' && t[|b|] == '-';
    if |a| < |b| {
      assert t[|a|] == b[|a|];
      NoDashInDigits(b, |a|);
    } else if |b| < |a| {
      assert s[|b|] == a[|b|];
      NoDashInDigits(a, |b|);
    }
    assert s[..|a|] == a && t[..|b|] == b && s[|a| + 1..] == x && t[|b| + 1..] == y;
  }

  lemma PrefixCancels(p: string, x: string, y: string)
    requires p + x == p + y
    ensures x == y
  {
    assert (p + x)[|p|..] == x && (p + y)[|p|..] == y;
  }

  lemma PartsInjective(b: nat, k: nat, c: nat, l: nat)
    requires Itoa(b) + "-" + Itoa(k) == Itoa(c) + "-" + Itoa(l)
    ensures b == c && k == l
  {
    ItoaDenotes(b);
    ItoaDenotes(c);
    DashSplits(Itoa(b), Itoa(k), Itoa(c), Itoa(l));
    hide *;
    ItoaInjective(b, c);
    ItoaInjective(k, l);
  }

  lemma ChainTagInjective(b: nat, k: nat, c: nat, l: nat)
    ensures ChainTag(b, k) == ChainTag(c, l) ==> b == c && k == l
    ensures ChainTag(b, k) != HOLDER
  {
    hide Itoa;
    var p, x, y := "chain-", Itoa(b) + "-" + Itoa(k), Itoa(c) + "-" + Itoa(l);
    assert ChainTag(b, k) == p + x && ChainTag(c, l) == p + y;
    assert (p + x)[0] == 'c';
    if ChainTag(b, k) == ChainTag(c, l) {
      PrefixCancels(p, x, y);
      PartsInjective(b, k, c, l);
    }
  }

  lemma TagsDiffer(d: int, i: nat, j: nat)
    requires d >= 1
    ensures TagOf(d, i) == TagOf(d, j) ==> i == j
    ensures TagOf(d, i) != HOLDER
  {
    hide ChainTag;
    assert i == d * (i / d) + i % d && j == d * (j / d) + j % d;
    ChainTagInjective(i / d + 1, i % d + 1, j / d + 1, j % d + 1);
  }

  /** Who owns a row once the roots of `n` waiters and the first `ready` waiters are set up. */
  function OwnerOf(d: int, n: nat, ready: nat, row: int): Option<string>
    requires d >= 1
  {
    if row < 1 then None
    else
      var q, m := (row - 1) / (d + 1), (row - 1) % (d + 1);
      if m == 0 then if q < Branches(n, d) then Some(HOLDER) else None
      else if q * d + m - 1 < ready then Some(TagOf(d, q * d + m - 1)) else None
  }

  /** The coordinates of a row: every row is a root or owned by exactly one waiter. */
  lemma RowCoordinates(d: int, i: nat)
    requires d >= 1
    ensures (RowOf(d, i) - 1) / (d + 1) == i / d && (RowOf(d, i) - 1) % (d + 1) == i % d + 1
    ensures (i / d) * d + (i % d + 1) - 1 == i
    ensures (RowOf(d, i) - 2) / (d + 1) == i / d && (RowOf(d, i) - 2) % (d + 1) == i % d
    ensures RowOf(d, i) >= 2
  {
    var q, k := i / d, i % d;
    assert i == q * d + k;
    assert RowOf(d, i) - 1 == q * (d + 1) + (k + 1);
    DivMod(q, d + 1, k + 1);
    DivMod(q, d + 1, k);
  }

  lemma RootCoordinates(d: int, b: nat)
    requires d >= 1
    ensures (RootRow(d, b) - 1) / (d + 1) == b && (RootRow(d, b) - 1) % (d + 1) == 0 && RootRow(d, b) >= 1
  {
    DivMod(b, d + 1, 0);
    TimesMonotone(d + 1, 0, b);
  }

  lemma BranchExists(d: int, n: nat, i: nat)
    requires d >= 1 && i < n
    ensures i / d < Branches(n, d)
  {
    var q := i / d;
    assert q * d <= i <= n - 1;
    assert n + d - 1 == d * Branches(n, d) + (n + d - 1) % d;
    if Branches(n, d) <= q { TimesMonotone(d, Branches(n, d), q); }
  }

  /** A row being set up is free, and the row a waiter asks for belongs to its blocker. */
  lemma OwnersFit(d: int, n: nat, ready: nat, i: nat)
    requires d >= 1 && i < n
    ensures OwnerOf(d, n, i, RowOf(d, i)) == None
    ensures i < ready ==> OwnerOf(d, n, ready, RowOf(d, i) - 1) == Some(BlockerOf(d, i))
  {
    RowCoordinates(d, i);
    BranchExists(d, n, i);
    if i % d > 0 { DivMod(i / d, d, i % d - 1); }
  }

  lemma RowOfWhere(d: int, i: nat, row: int)
    requires d >= 1 && row >= 1
    ensures row == RowOf(d, i) <==>
            (row - 1) % (d + 1) != 0 && ((row - 1) / (d + 1)) * d + (row - 1) % (d + 1) - 1 == i
  {
    RowCoordinates(d, i);
    var q, m := (row - 1) / (d + 1), (row - 1) % (d + 1);
    assert row - 1 == q * (d + 1) + m;
    if m != 0 && q * d + m - 1 == i { DivMod(q, d, m - 1); }
  }

  /** Setting up one more waiter changes the owner of its own row alone. */
  lemma OwnersNext(d: int, n: nat, ready: nat, row: int)
    requires d >= 1
    ensures OwnerOf(d, n, ready + 1, row) ==
            if row == RowOf(d, ready) then Some(TagOf(d, ready)) else OwnerOf(d, n, ready, row)
  {
    RowCoordinates(d, ready);
    if row >= 1 { RowOfWhere(d, ready, row); }
    hide RowOf, TagOf;
  }

  lemma DivNonNegative(x: int, d: int)
    requires x >= 0 && d >= 1
    ensures x / d >= 0
  {
    var q := x / d;
    assert x == d * q + x % d;
    if q < 0 { Times(d, -q); }
  }

  lemma BranchBounds(n: nat, d: int)
    requires d >= 1
    ensures var b := Branches(n, d); b >= 0 && b * d - d < n <= b * d
  {
    DivNonNegative(n + d - 1, d);
    var b, r := Branches(n, d), (n + d - 1) % d;
    assert n + d - 1 == d * b + r && 0 <= r < d;
  }

  /** Comparing a row `q` branches and `m` places down with the number of rows. */
  lemma RowBound(d: int, n: nat, b: int, q: nat, m: nat)
    requires d >= 1 && m <= d && b * d - d < n <= b * d
    ensures m == 0 ==> (q < b <==> q * d + q + m + 1 <= n + b)
    ensures m > 0 ==> (q * d + m - 1 < n <==> q * d + q + m + 1 <= n + b)
  {
    if q < b {
      TimesMonotone(d, q, b - 1);
      assert (b - 1) * d == b * d - d;
    } else {
      TimesMonotone(d, b, q);
    }
    if q + 1 < b {
      TimesMonotone(d, q + 2, b);
      assert (q + 2) * d == q * d + 2 * d;
    }
  }

  /** Row `row` is `m` places down its branch, with `q` branches before it. */
  lemma RowParts(d: int, row: int)
    requires d >= 1 && row >= 1
    ensures var q, m := (row - 1) / (d + 1), (row - 1) % (d + 1);
            q >= 0 && 0 <= m <= d && row == q * d + q + m + 1
  {
    var q, m := (row - 1) / (d + 1), (row - 1) % (d + 1);
    DivNonNegative(row - 1, d + 1);
    assert row - 1 == q * (d + 1) + m;
    assert q * (d + 1) == q * d + q;
  }

  /** The rows in use are exactly 1 up to the required number, each in use once. */
  lemma RowsUsed(d: int, n: nat, row: int)
    requires d >= 1
    ensures OwnerOf(d, n, n, row).Some? <==> 1 <= row <= RowChainRequiredRows(n + 1, d)
  {
    BranchBounds(n, d);
    assert RowChainRequiredRows(n + 1, d) == n + Branches(n, d);
    hide Branches, RowChainRequiredRows, TagOf;
    if row >= 1 {
      RowParts(d, row);
      RowBound(d, n, Branches(n, d), (row - 1) / (d + 1), (row - 1) % (d + 1));
    }
  }

  // ---- the layout on a row-lock manager ----

  /** Row locks held to the end of the transaction; a session that waits names whom it waits for. */
  datatype Manager = Manager(owner: map<int, string>, waiting: map<string, string>, ready: nat, started: set<nat>, stuck: bool)

  /** A session asks for a row: it gets a free or own row, and waits for the owner of any other. */
  function Ask(m: Manager, tag: string, row: int): Manager {
    if row !in m.owner then m.(owner := m.owner[row := tag])
    else if m.owner[row] == tag then m
    else m.(waiting := m.waiting[tag := m.owner[row]])
  }

  /** A session's statements one after the other; nothing runs behind one that waits. */
  function Execute(m: Manager, tag: string, statements: seq<Statement>): (r: Manager)
    ensures r == m.(owner := r.owner, waiting := r.waiting)
    decreases |statements|
  {
    if statements == [] || tag in m.waiting then m
    else if statements[0].UpdateRow? then Execute(Ask(m, tag, statements[0].row), tag, statements[1..])
    else Execute(m, tag, statements[1..])
  }

  /** Setups happen in order, on the engine's own thread; each waiter then waits on a thread of its own. */
  datatype Step = Setup | Wait(i: nat)

  predicate Enabled(waiters: seq<Waiter>, m: Manager, step: Step) {
    match step
    case Setup => m.ready < |waiters| && !m.stuck
    case Wait(i) => i < m.ready && i !in m.started
  }

  function Next(waiters: seq<Waiter>, m: Manager, step: Step): (r: Manager)
    requires m.ready <= |waiters| && Enabled(waiters, m, step)
    ensures r.ready <= |waiters|
  {
    match step
    case Setup =>
      var w := waiters[m.ready];
      var n := Execute(m, w.tag, w.setup);
      n.(ready := m.ready + 1, stuck := w.tag in n.waiting)
    case Wait(i) => Execute(m, waiters[i].tag, waiters[i].wait).(started := m.started + {i})
  }

  ghost predicate Schedule(waiters: seq<Waiter>, m: Manager, steps: seq<Step>)
    requires m.ready <= |waiters|
    decreases |steps|
  {
    steps == [] || (Enabled(waiters, m, steps[0]) && Schedule(waiters, Next(waiters, m, steps[0]), steps[1..]))
  }

  ghost function After(waiters: seq<Waiter>, m: Manager, steps: seq<Step>): (r: Manager)
    requires m.ready <= |waiters| && Schedule(waiters, m, steps)
    ensures r.ready <= |waiters|
    decreases |steps|
  {
    if steps == [] then m else After(waiters, Next(waiters, m, steps[0]), steps[1..])
  }

  const EMPTY: Manager := Manager(map[], map[], 0, {}, false)

  /** Rows are owned as the layout says, and exactly the started waiters wait, each for its blocker. */
  ghost predicate AsLaidOut(d: int, n: nat, m: Manager)
    requires d >= 1
  {
    && !m.stuck && m.ready <= n && (forall w :: w in m.started ==> w < m.ready)
    && (forall row :: row in m.owner <==> OwnerOf(d, n, m.ready, row).Some?)
    && (forall row :: row in m.owner ==> OwnerOf(d, n, m.ready, row) == Some(m.owner[row]))
    && (forall w :: w in m.started ==> TagOf(d, w) in m.waiting && m.waiting[TagOf(d, w)] == BlockerOf(d, w))
    && (forall tag :: tag in m.waiting ==> exists w :: w in m.started && tag == TagOf(d, w))
  }

  /** A root row of one of the first `b` branches. */
  predicate RootBelow(d: int, row: int, b: int)
    requires d >= 1
  {
    row >= 1 && (row - 1) % (d + 1) == 0 && (row - 1) / (d + 1) < b
  }

  lemma RootBelowFacts(d: int, n: nat, row: int, b: nat)
    requires d >= 1
    ensures !RootBelow(d, row, 0)
    ensures RootBelow(d, row, b + 1) <==> RootBelow(d, row, b) || row == RootRow(d, b)
    ensures !RootBelow(d, RootRow(d, b), b)
    ensures OwnerOf(d, n, 0, row) == if RootBelow(d, row, Branches(n, d)) then Some(HOLDER) else None
  {
    RootCoordinates(d, b);
    if row >= 1 {
      var q, m := (row - 1) / (d + 1), (row - 1) % (d + 1);
      DivNonNegative(row - 1, d + 1);
      assert row - 1 == q * (d + 1) + m;
      TimesMonotone(d, 0, q);
    }
  }

  /** The holder takes the root rows without waiting. */
  lemma {:induction false} HolderGets(d: int, n: nat, m: Manager, b: nat)
    requires d >= 1 && b <= Branches(n, d) && m.waiting == map[]
    requires forall row :: row in m.owner <==> RootBelow(d, row, b)
    requires forall row :: row in m.owner ==> m.owner[row] == HOLDER
    ensures var r := Execute(m, HOLDER, Roots(d, Branches(n, d))[b..]);
            && r == m.(owner := r.owner)
            && (forall row :: row in r.owner <==> RootBelow(d, row, Branches(n, d)))
            && (forall row :: row in r.owner ==> r.owner[row] == HOLDER)
    decreases Branches(n, d) - b
  {
    hide RootBelow, OwnerOf, RootRow, Branches;
    var roots := Roots(d, Branches(n, d));
    if b == Branches(n, d) {
      assert roots[b..] == [];
    } else {
      var row := RootRow(d, b);
      RootBelowFacts(d, n, row, b);
      var next := Ask(m, HOLDER, row);
      assert roots[b..][0] == UpdateRow(row) && roots[b..][1..] == roots[b + 1..];
      forall r ensures r in next.owner <==> RootBelow(d, r, b + 1) {
        RootBelowFacts(d, n, r, b);
      }
      HolderGets(d, n, next, b + 1);
    }
  }

  /** A single update that finds its row free, or another's. */
  lemma ExecuteOne(m: Manager, tag: string, row: int)
    requires tag !in m.waiting
    ensures Execute(m, tag, [UpdateRow(row)]) == Ask(m, tag, row)
  {
    assert [UpdateRow(row)][1..] == [];
  }

  lemma StartedApart(d: int, n: nat, m: Manager, i: nat)
    requires d >= 1 && AsLaidOut(d, n, m) && i !in m.started
    ensures TagOf(d, i) !in m.waiting
    ensures forall j :: j in m.started ==> TagOf(d, j) != TagOf(d, i)
  {
    forall j | j in m.started ensures TagOf(d, j) != TagOf(d, i) { TagsDiffer(d, i, j); }
    hide TagOf;
  }

  /** A setup finds its row free. */
  lemma SetupGets(d: int, n: nat, m: Manager)
    requires d >= 1 && AsLaidOut(d, n, m) && m.ready < n
    ensures Next(Chain(d, n), m, Setup) ==
            m.(owner := m.owner[RowOf(d, m.ready) := TagOf(d, m.ready)], ready := m.ready + 1)
  {
    var i := m.ready;
    assert Chain(d, n)[i] == ChainWaiter(d, i);
    StartedApart(d, n, m, i);
    OwnersFit(d, n, i, i);
    ExecuteOne(m, TagOf(d, i), RowOf(d, i));
    hide OwnerOf, TagOf, RowOf, BlockerOf, Execute;
  }

  lemma BlockerDiffers(d: int, i: nat)
    requires d >= 1
    ensures BlockerOf(d, i) != TagOf(d, i)
  {
    TagsDiffer(d, i, if i % d > 0 then i - 1 else i);
  }

  /** A wait finds its row owned by the blocker. */
  lemma WaitBlocks(d: int, n: nat, m: Manager, i: nat)
    requires d >= 1 && AsLaidOut(d, n, m) && i < m.ready && i !in m.started
    ensures Next(Chain(d, n), m, Wait(i)) ==
            m.(waiting := m.waiting[TagOf(d, i) := BlockerOf(d, i)], started := m.started + {i})
  {
    assert Chain(d, n)[i] == ChainWaiter(d, i);
    BlockerDiffers(d, i);
    hide OwnerOf, TagOf, RowOf, BlockerOf, Execute;
    StartedApart(d, n, m, i);
    OwnersFit(d, n, m.ready, i);
    ExecuteOne(m, TagOf(d, i), RowOf(d, i) - 1);
  }

  lemma SetupFits(d: int, n: nat, m: Manager)
    requires d >= 1 && AsLaidOut(d, n, m) && m.ready < n
    ensures AsLaidOut(d, n, Next(Chain(d, n), m, Setup))
  {
    hide OwnerOf, TagOf, RowOf, BlockerOf, Next, Chain;
    SetupGets(d, n, m);
    var r := Next(Chain(d, n), m, Setup);
    forall row ensures row in r.owner <==> OwnerOf(d, n, r.ready, row).Some? {
      OwnersNext(d, n, m.ready, row);
    }
    forall row | row in r.owner ensures OwnerOf(d, n, r.ready, row) == Some(r.owner[row]) {
      OwnersNext(d, n, m.ready, row);
    }
  }

  lemma WaitFits(d: int, n: nat, m: Manager, i: nat)
    requires d >= 1 && AsLaidOut(d, n, m) && i < m.ready && i !in m.started
    ensures AsLaidOut(d, n, Next(Chain(d, n), m, Wait(i)))
  {
    hide OwnerOf, TagOf, RowOf, BlockerOf, Next, Chain;
    WaitBlocks(d, n, m, i);
    StartedApart(d, n, m, i);
    var r := Next(Chain(d, n), m, Wait(i));
    forall tag | tag in r.waiting ensures exists j :: j in r.started && tag == TagOf(d, j) {
      if tag != TagOf(d, i) {
        var j :| j in m.started && tag == TagOf(d, j);
        assert j in r.started;
      } else {
        assert i in r.started;
      }
    }
  }

  lemma {:induction false} ScheduleFits(d: int, n: nat, m: Manager, steps: seq<Step>)
    requires d >= 1 && AsLaidOut(d, n, m) && Schedule(Chain(d, n), m, steps)
    ensures m.ready <= n && AsLaidOut(d, n, After(Chain(d, n), m, steps))
    decreases |steps|
  {
    assert m.ready <= n;
    hide AsLaidOut, Next, Chain;
    if steps != [] {
      if steps[0].Setup? { SetupFits(d, n, m); } else { WaitFits(d, n, m, steps[0].i); }
      ScheduleFits(d, n, Next(Chain(d, n), m, steps[0]), steps[1..]);
    }
  }

  ghost function WaitGraph(m: Manager): set<(string, string)> {
    set tag | tag in m.waiting :: (m.waiting[tag], tag)
  }

  function EdgeSet(edges: seq<Edge>): set<(string, string)> {
    set e | e in edges :: (e.blockerTag, e.waiterTag)
  }

  /** The manager after the holder's statements. */
  function Held(d: int, n: nat): (m: Manager)
    requires d >= 1
    ensures m.ready == 0
  {
    BranchBounds(n, d);
    Execute(EMPTY, HOLDER, Roots(d, Branches(n, d)))
  }

  lemma HeldFits(d: int, n: nat)
    requires d >= 1
    ensures AsLaidOut(d, n, Held(d, n))
  {
    BranchBounds(n, d);
    var roots := Roots(d, Branches(n, d));
    assert roots[0..] == roots;
    hide RootBelow, OwnerOf, RootRow, Branches, Execute;
    forall row ensures !RootBelow(d, row, 0) { RootBelowFacts(d, n, row, 0); }
    HolderGets(d, n, EMPTY, 0);
    forall row ensures OwnerOf(d, n, 0, row) == if RootBelow(d, row, Branches(n, d)) then Some(HOLDER) else None {
      RootBelowFacts(d, n, row, 0);
    }
  }

  lemma GraphFits(d: int, n: nat, m: Manager)
    requires d >= 1 && AsLaidOut(d, n, m)
    ensures WaitGraph(m) <= EdgeSet(ChainEdges(d, n))
    ensures (forall i :: 0 <= i < n ==> i in m.started) ==> WaitGraph(m) == EdgeSet(ChainEdges(d, n))
  {
    hide OwnerOf, TagOf, RowOf, BlockerOf;
    var edges := ChainEdges(d, n);
    forall pair | pair in WaitGraph(m) ensures pair in EdgeSet(edges) {
      var i :| i in m.started && pair.1 == TagOf(d, i);
      assert edges[i] == ChainEdge(d, i) && edges[i] in edges;
    }
    if forall i :: 0 <= i < n ==> i in m.started {
      forall pair | pair in EdgeSet(edges) ensures pair in WaitGraph(m) {
        var e :| e in edges && pair == (e.blockerTag, e.waiterTag);
        var i :| 0 <= i < n && edges[i] == e;
        assert i in m.started;
      }
    }
  }

  /**
   * The row chain does what it is for. Whatever the threads' schedule, no setup ever waits and
   * every wait is an expected one; once every waiter is set up, the rows held are exactly
   * 1 up to the required number; and once all wait, the wait-for graph is exactly the expected one.
   */
  lemma ChainWaitsAsExpected(d: int, n: nat, steps: seq<Step>)
    requires d >= 1 && Schedule(Chain(d, n), Held(d, n), steps)
    ensures var m := After(Chain(d, n), Held(d, n), steps);
            && !m.stuck && WaitGraph(m) <= EdgeSet(ChainEdges(d, n))
            && (m.ready == n ==> forall row :: row in m.owner <==> 1 <= row <= RowChainRequiredRows(n + 1, d))
            && ((forall i :: 0 <= i < n ==> i in m.started) ==> WaitGraph(m) == EdgeSet(ChainEdges(d, n)))
  {
    HeldFits(d, n);
    ScheduleFits(d, n, Held(d, n), steps);
    var m := After(Chain(d, n), Held(d, n), steps);
    assert !m.stuck;
    if m.ready == n {
      forall row ensures row in m.owner <==> 1 <= row <= RowChainRequiredRows(n + 1, d) { RowsUsed(d, n, row); }
    }
    hide *;
    GraphFits(d, n, m);
  }

  // ---- the graph is a forest of the requested depth ----

  /** `k` edges up from `tag`. */
  function Climb(waiting: map<string, string>, tag: string, k: nat): string
    decreases k
  {
    if k == 0 || tag !in waiting then tag else Climb(waiting, waiting[tag], k - 1)
  }

  /** A waiter of depth j + 1 reaches the holder by exactly j + 1 edges, and the holder waits for nobody. */
  lemma {:induction false} ForestRootedAtHolder(d: int, n: nat, m: Manager, b: nat, j: nat, k: nat)
    requires j < d && AsLaidOut(d, n, m) && (forall i :: 0 <= i < n ==> i in m.started)
    requires 0 <= b * d + j < n && k <= j
    ensures HOLDER !in m.waiting
    ensures Climb(m.waiting, ChainTag(b + 1, j + 1), k) != HOLDER
    ensures Climb(m.waiting, ChainTag(b + 1, j + 1), j + 1) == HOLDER
    decreases j
  {
    forall i | i in m.started ensures TagOf(d, i) != HOLDER { TagsDiffer(d, i, i); }
    Coordinates(d, b, j);
    var i := b * d + j;
    assert i in m.started && TagOf(d, i) in m.waiting && m.waiting[TagOf(d, i)] == BlockerOf(d, i);
    assert HOLDER !in m.waiting;
    hide OwnerOf, TagOf, BlockerOf, ChainTag, RowOf, AsLaidOut;
    if j > 0 {
      TimesMonotone(d, 0, b);
      ForestRootedAtHolder(d, n, m, b, j - 1, if k > 0 then k - 1 else 0);
    } else {
      assert Climb(m.waiting, HOLDER, 0) == HOLDER;
    }
  }

  /** The first branch is a full one when there are waiters enough, so the requested depth is reached. */
  lemma DepthReached(d: int, n: nat)
    requires 1 <= d <= n
    ensures (d - 1) % d + 1 == d
    ensures forall w :: w in Chain(d, n) ==> 1 <= w.depth <= d
    ensures exists w :: w in Chain(d, n) && w.depth == d
  {
    var chain := Chain(d, n);
    DivMod(0, d, d - 1);
    assert chain[d - 1] == ChainWaiter(d, d - 1) && chain[d - 1] in chain;
    forall w | w in chain ensures 1 <= w.depth <= d {
      var i :| 0 <= i < n && chain[i] == w;
      assert chain[i] == ChainWaiter(d, i);
    }
  }

  // ---- the checks around it ----

  /** `safeSchema` and `safeRun` are the identifier patterns; `column` names the i-th DDL column. */
  method ConfigureLockDefinition(
      definition: Definition, config: LockConfig, safeSchema: bool, safeRun: bool, column: nat -> string)
    returns (r: Result<Definition, ConfigError>)
    ensures r.Ok? ==>
              && definition.code in {501, 502, 503}
              && r.value.sessions >= 2 && |r.value.waiters| == |r.value.edges| == r.value.sessions - 1
              && forall i :: 0 <= i < |r.value.edges| ==>
                   && r.value.edges[i].waiterTag == r.value.waiters[i].tag
                   && r.value.edges[i].blockerTag == r.value.waiters[i].blockerTag
                   && 1 <= r.value.edges[i].depth <= r.value.depth
    ensures r.Ok? && definition.code == 501 ==>
              && 1 <= config.rowChainDepth <= 5 && r.value.depth == config.rowChainDepth
              && config.rowChainDepth <= config.rowChainSessions - 1
              && RowChainRequiredRows(config.rowChainSessions, config.rowChainDepth) <= LOCK_TARGET_ROWS
              && r.value.waiters == Chain(config.rowChainDepth, config.rowChainSessions - 1)
              && r.value.edges == ChainEdges(config.rowChainDepth, config.rowChainSessions - 1)
              && Branches(config.rowChainSessions - 1, config.rowChainDepth) >= 0
              && r.value.holder == Roots(config.rowChainDepth, Branches(config.rowChainSessions - 1, config.rowChainDepth))
    ensures (safeSchema && safeRun && definition.code == 501
             && 1 <= config.rowChainDepth <= 5 && config.rowChainDepth < config.rowChainSessions
             && RowChainRequiredRows(config.rowChainSessions, config.rowChainDepth) <= LOCK_TARGET_ROWS) ==> r.Ok?
  {
    hide ChainTag, TagOf, RowOf, RootRow;
    if !safeSchema { return Err(UnsafeSchema); }
    if !safeRun { return Err(UnsafeRunId); }
    if definition.code !in {501, 502, 503} { return Err(NotConfigurable); }
    var sessions := if definition.code == 501 then config.rowChainSessions
                    else if definition.code == 502 then config.tableExclusiveSessions else config.ddlWaitSessions;
    var depth := if definition.code == 501 then config.rowChainDepth else 1;
    if sessions < 2 { return Err(TooFewSessions); }
    if definition.code == 501 {
      if depth < 1 || depth > 5 { return Err(DepthOutOfRange); }
      if sessions < depth + 1 { return Err(SessionsBelowDepth); }
      if RowChainRequiredRows(sessions, depth) > LOCK_TARGET_ROWS { return Err(TooManyRows); }
    }
    var blank := definition.(sessions := sessions, depth := depth, waiters := [], edges := [], branchLengths := []);
    var configured: Definition;
    if definition.code == 501 {
      configured := ConfigureRowChainWaiters(blank, sessions, depth);
      forall i | 0 <= i < sessions - 1
        ensures configured.edges[i] == ChainEdge(depth, i) && configured.waiters[i] == ChainWaiter(depth, i)
      {
      }
    } else if definition.code == 502 {
      configured := ConfigureDirectWaiters(blank, sessions, i => definition.waiterSql);
    } else {
      configured := ConfigureDirectWaiters(blank, sessions, (i: nat) => [AddColumn(column(i))]);
    }
    r := Ok(configured);
  }
}
