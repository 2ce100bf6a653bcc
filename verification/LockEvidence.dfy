/** Deciding from observed waits whether the expected topology exists (internal/gsbench/lock_engine.go). */
module LockEvidence {
  import opened Common
  import opened Text
  import T = LockTopology

  datatype Item = Item(
    node: string, relation: string, lockType: string, holderMode: string, waiterMode: string,
    granted: bool, blockerTag: string, waiterTag: string, waitAge: int
  )

  /** The string tests: how an application name shows a role, contains a tag, and a mode is normalised. */
  datatype Reader = Reader(role: (string, string) -> bool, contains: (string, string) -> bool, mode: string -> string)

  /** The part of a lock definition that evidence is held against. */
  datatype Target = Target(
    code: int, relation: string, holderMode: string, waiterMode: string, rowChain: bool,
    waiters: seq<T.Waiter>, edges: seq<T.Edge>, depth: int,
    chainTags: seq<string>, holderTag: string, waiterTag: string
  )

  predicate ModeMatches(r: Reader, a: string, b: string) { r.mode(a) == r.mode(b) }

  predicate ModesMatch(r: Reader, t: Target, item: Item) {
    ModeMatches(r, item.holderMode, t.holderMode) && ModeMatches(r, item.waiterMode, t.waiterMode)
  }

  /** The four ways in which a definition says what it expects. */
  datatype Kind = Direct | Tags | Edges | Waiters

  function KindOf(t: Target): Kind {
    if t.waiters == [] then if t.rowChain then Tags else Direct
    else if t.rowChain && t.code != 503 then Edges else Waiters
  }

  /** How many waits are expected. */
  function Expected(t: Target): nat {
    match KindOf(t)
    case Direct => 1
    case Tags => if t.chainTags == [] then 0 else |t.chainTags| - 1
    case Edges => |t.edges|
    case Waiters => |t.waiters|
  }

  /** The item shows the expected wait number `i`. */
  predicate Shows(r: Reader, t: Target, item: Item, i: nat)
    requires i < Expected(t)
  {
    && !item.granted && item.relation == t.relation
    && match KindOf(t)
       case Direct =>
         ModesMatch(r, t, item) && r.contains(item.blockerTag, t.holderTag) && r.contains(item.waiterTag, t.waiterTag)
       case Tags =>
         && ModesMatch(r, t, item) && item.lockType == "transactionid"
         && r.contains(item.blockerTag, t.chainTags[i]) && r.contains(item.waiterTag, t.chainTags[i + 1])
       case Edges =>
         && ModesMatch(r, t, item) && item.lockType == "transactionid"
         && r.role(item.blockerTag, t.edges[i].blockerTag) && r.role(item.waiterTag, t.edges[i].waiterTag)
       case Waiters =>
         if t.code == 503 then item.lockType == "relation" && r.role(item.waiterTag, t.waiters[i].tag)
         else ModesMatch(r, t, item) && r.role(item.blockerTag, t.waiters[i].blockerTag)
              && r.role(item.waiterTag, t.waiters[i].tag)
  }

  predicate ShowsSome(r: Reader, t: Target, item: Item) {
    exists i: nat :: i < Expected(t) && Shows(r, t, item, i)
  }

  function ShownBy(r: Reader, t: Target, item: Item): set<nat> {
    set i: nat | i < Expected(t) && Shows(r, t, item, i)
  }

  /** Which of the expected waits the evidence shows. */
  function Seen(r: Reader, t: Target, evidence: seq<Item>): set<nat> {
    if evidence == [] then {}
    else Seen(r, t, evidence[..|evidence| - 1]) + ShownBy(r, t, evidence[|evidence| - 1])
  }

  /** The first item that shows anything. */
  function FirstShown(r: Reader, t: Target, evidence: seq<Item>): Option<Item> {
    if evidence == [] then None
    else
      var before := FirstShown(r, t, evidence[..|evidence| - 1]);
      if before.Some? then before
      else if ShowsSome(r, t, evidence[|evidence| - 1]) then Some(evidence[|evidence| - 1]) else None
  }

  // ---- the verdict ----

  function EdgeKey(e: T.Edge): string { e.blockerTag + "->" + e.waiterTag }

  function EdgeKeys(t: Target, seen: set<nat>): set<string> {
    set i | i in seen && i < |t.edges| :: EdgeKey(t.edges[i])
  }

  function EdgeWaiters(t: Target, seen: set<nat>): set<string> {
    set i | i in seen && i < |t.edges| :: t.edges[i].waiterTag
  }

  function WaiterTags(t: Target, seen: set<nat>): set<string> {
    set i | i in seen && i < |t.waiters| :: t.waiters[i].tag
  }

  function TagKeys(t: Target, seen: set<nat>): set<string> {
    set i | i in seen && i + 1 < |t.chainTags| :: t.chainTags[i] + "->" + t.chainTags[i + 1]
  }

  /** The greatest depth among the first `n` edges that were seen. */
  function DepthOf(edges: seq<T.Edge>, seen: set<nat>, n: nat): int
    requires n <= |edges|
  {
    if n == 0 then 0 else Max(DepthOf(edges, seen, n - 1), if n - 1 in seen then edges[n - 1].depth else 0)
  }

  /** The result: whether it succeeded, and what it reports. */
  datatype Verdict = Verdict(success: bool, waiters: nat, edges: nat, depth: int, shown: Option<Item>)

  function Judge(t: Target, seen: set<nat>, first: Option<Item>): Verdict {
    match KindOf(t)
    case Direct => Verdict(first.Some?, 0, 0, 0, first)
    case Tags =>
      var n := |TagKeys(t, seen)|;
      if |t.chainTags| < 3 then Verdict(false, 0, 0, 0, None) else Verdict(n == |t.chainTags| - 1, 0, n, 0, None)
    case Edges =>
      var waiters, keys, depth := |EdgeWaiters(t, seen)|, |EdgeKeys(t, seen)|, DepthOf(t.edges, seen, |t.edges|);
      Verdict(keys == |t.edges| && waiters == |t.waiters| && depth == t.depth, waiters, keys, depth, None)
    case Waiters =>
      var waiters := |WaiterTags(t, seen)|;
      Verdict(waiters == |t.waiters| && (t.rowChain ==> t.edges == [] && t.depth == 0), waiters, 0, 0, None)
  }

  function Verify(r: Reader, t: Target, evidence: seq<Item>): Verdict {
    Judge(t, Seen(r, t, evidence), FirstShown(r, t, evidence))
  }

  // ---- retention ----

  predicate SameEdge(r: Reader, a: Item, b: Item) {
    && a.node == b.node && a.relation == b.relation && a.lockType == b.lockType
    && ModeMatches(r, a.holderMode, b.holderMode) && ModeMatches(r, a.waiterMode, b.waiterMode)
    && a.granted == b.granted && a.blockerTag == b.blockerTag && a.waiterTag == b.waiterTag
  }

  /** What one observed item adds. */
  function Keep(r: Reader, t: Target, existing: seq<Item>, item: Item): seq<Item> {
    if !ShowsSome(r, t, item) || exists e :: e in existing && SameEdge(r, e, item) then existing
    else existing + [item]
  }

  function Retained(r: Reader, t: Target, existing: seq<Item>, observed: seq<Item>): seq<Item> {
    if observed == [] then existing
    else Keep(r, t, Retained(r, t, existing, observed[..|observed| - 1]), observed[|observed| - 1])
  }

  lemma SameEdgeShows(r: Reader, t: Target, a: Item, b: Item)
    requires SameEdge(r, a, b)
    ensures forall i: nat :: i < Expected(t) ==> (Shows(r, t, a, i) <==> Shows(r, t, b, i))
  {
  }

  lemma {:induction false} SeenByMember(r: Reader, t: Target, evidence: seq<Item>, item: Item, i: nat)
    requires item in evidence && i < Expected(t) && Shows(r, t, item, i)
    ensures i in Seen(r, t, evidence) && FirstShown(r, t, evidence).Some?
  {
    hide Shows, Expected;
    var rest, last := evidence[..|evidence| - 1], evidence[|evidence| - 1];
    assert evidence == rest + [last];
    if item in rest { SeenByMember(r, t, rest, item, i); } else { assert ShowsSome(r, t, last); }
  }

  lemma {:induction false} SeenWitness(r: Reader, t: Target, evidence: seq<Item>, i: nat) returns (item: Item)
    requires i in Seen(r, t, evidence)
    ensures item in evidence && i < Expected(t) && Shows(r, t, item, i)
  {
    hide Shows, Expected;
    var rest, last := evidence[..|evidence| - 1], evidence[|evidence| - 1];
    if i in Seen(r, t, rest) { item := SeenWitness(r, t, rest, i); } else { item := last; }
  }

  /** Keeping an item or leaving it out makes no difference to what was seen. */
  lemma KeepSees(r: Reader, t: Target, kept: seq<Item>, all: seq<Item>, item: Item)
    requires Seen(r, t, kept) == Seen(r, t, all) && FirstShown(r, t, kept) == FirstShown(r, t, all)
    ensures Seen(r, t, Keep(r, t, kept, item)) == Seen(r, t, all + [item])
    ensures FirstShown(r, t, Keep(r, t, kept, item)) == FirstShown(r, t, all + [item])
  {
    assert (all + [item])[..|all|] == all && (kept + [item])[..|kept|] == kept;
    if e :| e in kept && SameEdge(r, e, item) {
      SameEdgeShows(r, t, e, item);
      hide Shows, Expected;
      forall i: nat | i < Expected(t) && Shows(r, t, item, i)
        ensures i in Seen(r, t, kept) && FirstShown(r, t, kept).Some?
      {
        SeenByMember(r, t, kept, e, i);
      }
    }
    hide Shows, Expected;
  }

  /**
   * The retained evidence decides as the whole history does, in every reported detail, however
   * the history was split into observations.
   */
  lemma {:induction false} RetainedDecides(r: Reader, t: Target, existing: seq<Item>, history: seq<Item>, observed: seq<Item>)
    requires Seen(r, t, existing) == Seen(r, t, history) && FirstShown(r, t, existing) == FirstShown(r, t, history)
    ensures Verify(r, t, Retained(r, t, existing, observed)) == Verify(r, t, history + observed)
    ensures Seen(r, t, Retained(r, t, existing, observed)) == Seen(r, t, history + observed)
    ensures FirstShown(r, t, Retained(r, t, existing, observed)) == FirstShown(r, t, history + observed)
  {
    hide Seen, FirstShown, Keep;
    if observed == [] {
      assert history + observed == history;
    } else {
      var rest, last := observed[..|observed| - 1], observed[|observed| - 1];
      RetainedDecides(r, t, existing, history, rest);
      KeepSees(r, t, Retained(r, t, existing, rest), history + rest, last);
      assert history + observed == (history + rest) + [last];
    }
  }

  // ---- monotonicity and exactness ----

  lemma {:induction false} SeenJoin(r: Reader, t: Target, a: seq<Item>, b: seq<Item>)
    ensures Seen(r, t, a + b) == Seen(r, t, a) + Seen(r, t, b)
    ensures FirstShown(r, t, a).Some? ==> FirstShown(r, t, a + b) == FirstShown(r, t, a)
    ensures forall i :: i in Seen(r, t, b) ==> i < Expected(t)
  {
    hide Expected, Shows, ShowsSome;
    if b == [] {
      assert a + b == a;
    } else {
      assert (a + b)[..|a + b| - 1] == a + b[..|b| - 1];
      SeenJoin(r, t, a, b[..|b| - 1]);
    }
  }

  /** An image is no larger than what it is the image of. */
  lemma {:induction false} ImageSize(s: set<nat>, f: nat -> string)
    ensures |set i | i in s :: f(i)| <= |s|
    decreases |s|
  {
    if s != {} {
      var x :| x in s;
      var rest := s - {x};
      ImageSize(rest, f);
      assert (set i | i in s :: f(i)) == (set i | i in rest :: f(i)) + {f(x)};
    }
  }

  lemma {:induction false} InjectiveImage(s: set<nat>, f: nat -> string)
    requires forall i, j :: i in s && j in s && f(i) == f(j) ==> i == j
    ensures |set i | i in s :: f(i)| == |s|
    decreases |s|
  {
    if s != {} {
      var x :| x in s;
      var rest := s - {x};
      InjectiveImage(rest, f);
      assert (set i | i in s :: f(i)) == (set i | i in rest :: f(i)) + {f(x)};
      assert f(x) !in set i | i in rest :: f(i);
    }
  }

  function UpTo(n: nat): (s: set<nat>)
    ensures forall i: nat :: i in s <==> i < n
  {
    if n == 0 then {} else UpTo(n - 1) + {n - 1}
  }

  lemma {:induction false} UpToSize(n: nat)
    ensures |UpTo(n)| == n
  {
    if n > 0 {
      UpToSize(n - 1);
      var rest := UpTo(n - 1);
      assert n - 1 !in rest && |rest + {n - 1}| == |rest| + 1;
    }
  }

  /** Only the full set has an image as large as itself. */
  lemma FullImage(s: set<nat>, n: nat, f: nat -> string)
    requires s <= UpTo(n) && |set i | i in s :: f(i)| >= n
    ensures s == UpTo(n)
  {
    ImageSize(s, f);
    UpToSize(n);
    if s != UpTo(n) {
      assert !(UpTo(n) <= s);
      var x :| x in UpTo(n) && x !in s;
      Smaller(s, UpTo(n), x);
    }
  }

  lemma Smaller(s: set<nat>, u: set<nat>, x: nat)
    requires s <= u && x in u && x !in s
    ensures |s| < |u|
  {
    assert u == (u - s) + s && (u - s) * s == {};
    assert x in u - s;
  }

  /** What a success says: every expected wait was seen. */
  lemma SuccessIsComplete(t: Target, seen: set<nat>, first: Option<Item>)
    requires seen <= UpTo(Expected(t)) && Judge(t, seen, first).success
    ensures KindOf(t) != Direct ==> seen == UpTo(Expected(t))
  {
    var n := Expected(t);
    match KindOf(t)
    case Direct =>
    case Tags =>
      var f := (i: nat) => if i + 1 < |t.chainTags| then t.chainTags[i] + "->" + t.chainTags[i + 1] else "";
      assert TagKeys(t, seen) == set i | i in seen :: f(i);
      FullImage(seen, n, f);
    case Edges =>
      var f := (i: nat) => if i < |t.edges| then EdgeKey(t.edges[i]) else "";
      assert EdgeKeys(t, seen) == set i | i in seen :: f(i);
      FullImage(seen, n, f);
    case Waiters =>
      var f := (i: nat) => if i < |t.waiters| then t.waiters[i].tag else "";
      assert WaiterTags(t, seen) == set i | i in seen :: f(i);
      FullImage(seen, n, f);
  }

  lemma SeenExpected(r: Reader, t: Target, evidence: seq<Item>)
    ensures Seen(r, t, evidence) <= UpTo(Expected(t))
  {
    SeenJoin(r, t, [], evidence);
  }

  /** More evidence never undoes a success. */
  lemma VerifyMonotone(r: Reader, t: Target, evidence: seq<Item>, more: seq<Item>)
    requires Verify(r, t, evidence).success
    ensures Verify(r, t, evidence + more) == Verify(r, t, evidence)
  {
    SeenJoin(r, t, evidence, more);
    SeenExpected(r, t, evidence);
    SeenExpected(r, t, evidence + more);
    var seen, first := Seen(r, t, evidence), FirstShown(r, t, evidence);
    SuccessIsComplete(t, seen, first);
    JudgedBy(t, seen, seen, first, FirstShown(r, t, evidence + more));
    JudgedBy(t, seen, Seen(r, t, evidence + more), first, first);
    assert KindOf(t) == Direct ==> first.Some?;
    hide Seen, FirstShown, Expected, Judge, KindOf;
    assert KindOf(t) != Direct ==> Seen(r, t, evidence + more) == seen;
  }

  /** A direct wait is judged by the first item alone, everything else by what was seen. */
  lemma JudgedBy(t: Target, seen: set<nat>, other: set<nat>, first: Option<Item>, second: Option<Item>)
    ensures if KindOf(t) == Direct then Judge(t, seen, first) == Judge(t, other, first)
            else Judge(t, seen, first) == Judge(t, seen, second)
  {
  }

  predicate Observed(r: Reader, t: Target, evidence: seq<Item>, i: nat)
    requires i < Expected(t)
  {
    exists item :: item in evidence && Shows(r, t, item, i)
  }

  /** For a configured topology success means that every expected wait was observed. */
  lemma SuccessShowsEverything(r: Reader, t: Target, evidence: seq<Item>, i: nat)
    requires Verify(r, t, evidence).success && KindOf(t) != Direct && i < Expected(t)
    ensures Observed(r, t, evidence, i)
  {
    SeenExpected(r, t, evidence);
    SuccessIsComplete(t, Seen(r, t, evidence), FirstShown(r, t, evidence));
    hide Shows, Expected, Judge;
    assert i in Seen(r, t, evidence);
    var item := SeenWitness(r, t, evidence, i);
  }

  // ---- the row chain ----

  /** The laid-out chain of `n` waiters in branches of at most `d`. */
  function ChainTarget(d: int, n: nat, relation: string, holderMode: string, waiterMode: string): Target
    requires d >= 1
  {
    Target(501, relation, holderMode, waiterMode, true, T.Chain(d, n), T.ChainEdges(d, n), d, [], T.HOLDER, "")
  }

  predicate NoArrow(s: string) {
    s == "" || (s[|s| - 1] != '>' && NoArrow(s[..|s| - 1]))
  }

  lemma {:induction false} NoArrowAt(s: string, k: nat)
    requires NoArrow(s) && k < |s|
    ensures s[k] != '>'
  {
    if k < |s| - 1 { NoArrowAt(s[..|s| - 1], k); }
  }

  lemma {:induction false} NoArrowJoin(a: string, b: string)
    requires NoArrow(a) && NoArrow(b)
    ensures NoArrow(a + b)
  {
    if b == "" {
      assert a + b == a;
    } else {
      assert (a + b)[..|a + b| - 1] == a + b[..|b| - 1];
      NoArrowJoin(a, b[..|b| - 1]);
    }
  }

  lemma {:induction false} DigitsHaveNoArrow(s: string)
    requires AllDigits(s)
    ensures NoArrow(s)
  {
    if s != "" { DigitsHaveNoArrow(s[..|s| - 1]); }
  }

  lemma TagHasNoArrow(d: int, i: nat)
    requires d >= 1
    ensures NoArrow(T.TagOf(d, i)) && NoArrow(T.BlockerOf(d, i))
  {
    ChainTagHasNoArrow(i / d + 1, i % d + 1);
    if i % d > 0 { ChainTagHasNoArrow((i - 1) / d + 1, (i - 1) % d + 1); }
    LiteralsHaveNoArrow();
  }

  lemma LiteralsHaveNoArrow()
    ensures NoArrow("chain-") && NoArrow("-") && NoArrow(T.HOLDER)
  {
    assert "chain-" == "c" + "h" + "a" + "i" + "n" + "-";
    NoArrowLetters("chain-");
    NoArrowLetters("-");
    NoArrowLetters(T.HOLDER);
  }

  lemma {:induction false} NoArrowLetters(s: string)
    requires forall k :: 0 <= k < |s| ==> s[k] != '>'
    ensures NoArrow(s)
  {
    if s != "" { NoArrowLetters(s[..|s| - 1]); }
  }

  lemma ChainTagHasNoArrow(b: nat, k: nat)
    ensures NoArrow(T.ChainTag(b, k))
  {
    LiteralsHaveNoArrow();
    ItoaDenotes(b);
    ItoaDenotes(k);
    DigitsHaveNoArrow(Itoa(b));
    DigitsHaveNoArrow(Itoa(k));
    hide *;
    NoArrowJoin("chain-", Itoa(b));
    NoArrowJoin("chain-" + Itoa(b), "-");
    NoArrowJoin("chain-" + Itoa(b) + "-", Itoa(k));
    ChainTagIs(b, k);
  }

  lemma ChainTagIs(b: nat, k: nat)
    ensures T.ChainTag(b, k) == "chain-" + Itoa(b) + "-" + Itoa(k)
  {
  }

  /** The arrow splits a key in one way only. */
  lemma ArrowSplits(a: string, x: string, b: string, y: string)
    requires NoArrow(a) && NoArrow(b) && a + "->" + x == b + "->" + y
    ensures x == y
  {
    var s, t := a + "->" + x, b + "->" + y;
    assert s[|a|] == '-' && s[|a| + 1] == '>' && t[|b|] == '-' && t[|b| + 1] == '>';
    assert s[..|a|] == a && t[..|b|] == b && s[|a| + 2..] == x && t[|b| + 2..] == y;
    if |a| + 1 < |b| {
      NoArrowAt(b, |a| + 1);
    } else if |b| + 1 < |a| {
      NoArrowAt(a, |b| + 1);
    }
  }

  lemma ChainKeysDiffer(d: int, i: nat, j: nat)
    requires d >= 1 && EdgeKey(T.ChainEdge(d, i)) == EdgeKey(T.ChainEdge(d, j))
    ensures i == j
  {
    TagHasNoArrow(d, i);
    TagHasNoArrow(d, j);
    hide T.TagOf, T.BlockerOf;
    ArrowSplits(T.BlockerOf(d, i), T.TagOf(d, i), T.BlockerOf(d, j), T.TagOf(d, j));
    T.TagsDiffer(d, i, j);
  }

  lemma {:induction false} DepthBounds(edges: seq<T.Edge>, seen: set<nat>, n: nat, d: int)
    requires n <= |edges| && (forall i :: 0 <= i < n ==> 0 <= edges[i].depth <= d) && 0 <= d
    ensures 0 <= DepthOf(edges, seen, n) <= d
    ensures forall i :: 0 <= i < n && i in seen ==> edges[i].depth <= DepthOf(edges, seen, n)
  {
    if n > 0 { DepthBounds(edges, seen, n - 1, d); }
  }

  lemma AllKeys(t: Target, d: int, n: nat)
    requires 1 <= d && t == ChainTarget(d, n, t.relation, t.holderMode, t.waiterMode)
    ensures |EdgeKeys(t, UpTo(n))| == n
  {
    var keys := (i: nat) => EdgeKey(T.ChainEdge(d, i));
    forall i, j | i in UpTo(n) && j in UpTo(n) && keys(i) == keys(j) ensures i == j { ChainKeysDiffer(d, i, j); }
    hide EdgeKey, T.ChainEdge;
    InjectiveImage(UpTo(n), keys);
    UpToSize(n);
    KeysAre(t, d, n, keys);
  }

  lemma KeysAre(t: Target, d: int, n: nat, keys: nat -> string)
    requires 1 <= d && t.edges == T.ChainEdges(d, n) && forall i :: keys(i) == EdgeKey(T.ChainEdge(d, i))
    ensures EdgeKeys(t, UpTo(n)) == set i | i in UpTo(n) :: keys(i)
  {
    assert forall i :: 0 <= i < n ==> t.edges[i] == T.ChainEdge(d, i);
    hide EdgeKey, T.ChainEdge;
  }

  lemma AllTags(t: Target, d: int, n: nat)
    requires 1 <= d && t == ChainTarget(d, n, t.relation, t.holderMode, t.waiterMode)
    ensures |EdgeWaiters(t, UpTo(n))| == n
  {
    hide T.TagOf, T.BlockerOf;
    var all := UpTo(n);
    var tags := (i: nat) => T.TagOf(d, i);
    forall i, j | i in all && j in all && tags(i) == tags(j) ensures i == j { T.TagsDiffer(d, i, j); }
    InjectiveImage(all, tags);
    UpToSize(n);
    assert forall i :: 0 <= i < n ==> t.edges[i].waiterTag == T.TagOf(d, i);
    assert EdgeWaiters(t, all) == set i | i in all :: tags(i);
  }

  lemma AllDepth(t: Target, d: int, n: nat)
    requires 1 <= d <= n && t == ChainTarget(d, n, t.relation, t.holderMode, t.waiterMode)
    ensures DepthOf(t.edges, UpTo(n), n) == d
  {
    hide T.TagOf, T.BlockerOf;
    T.DivMod(0, d, d - 1);
    assert forall i :: 0 <= i < n ==> t.edges[i].depth == i % d + 1;
    DepthBounds(t.edges, UpTo(n), n, d);
    assert t.edges[d - 1].depth == d;
  }

  /** All of the chain seen is a success. */
  lemma CompleteIsSuccess(t: Target, d: int, n: nat, first: Option<Item>)
    requires 1 <= d <= n && t == ChainTarget(d, n, t.relation, t.holderMode, t.waiterMode)
    ensures Judge(t, UpTo(n), first).success
  {
    hide T.ChainEdge, T.ChainWaiter, DepthOf, EdgeKeys, EdgeWaiters;
    AllKeys(t, d, n);
    AllTags(t, d, n);
    AllDepth(t, d, n);
    assert |t.waiters| == |t.edges| == n && KindOf(t) == Edges;
  }

  /** The verdict on the configured row chain is a success exactly when every expected edge was observed. */
  lemma ChainVerdict(r: Reader, t: Target, d: int, n: nat, evidence: seq<Item>)
    requires 1 <= d <= n && t == ChainTarget(d, n, t.relation, t.holderMode, t.waiterMode)
    ensures Expected(t) == n
    ensures Verify(r, t, evidence).success <==> forall i: nat :: i < n ==> Observed(r, t, evidence, i)
  {
    assert Expected(t) == n && KindOf(t) == Edges;
    hide ChainTarget, Expected, Shows, Judge;
    if Verify(r, t, evidence).success {
      forall i: nat | i < n ensures Observed(r, t, evidence, i) {
        SuccessShowsEverything(r, t, evidence, i);
      }
    }
    if forall i: nat :: i < n ==> Observed(r, t, evidence, i) {
      SeenExpected(r, t, evidence);
      forall i: nat | i < n ensures i in Seen(r, t, evidence) {
        assert Observed(r, t, evidence, i);
        var item :| item in evidence && Shows(r, t, item, i);
        SeenByMember(r, t, evidence, item, i);
      }
      assert Seen(r, t, evidence) == UpTo(n);
      CompleteIsSuccess(t, d, n, FirstShown(r, t, evidence));
    }
  }

  // ---- the loops ----

  method IsExpectedLockEvidence(r: Reader, t: Target, item: Item) returns (expected: bool)
    ensures expected <==> ShowsSome(r, t, item)
  {
    expected := false;
    if item.granted || item.relation != t.relation { return; }
    if KindOf(t) == Direct {
      expected := ModesMatch(r, t, item)
                  && r.contains(item.blockerTag, t.holderTag) && r.contains(item.waiterTag, t.waiterTag);
      assert expected <==> Shows(r, t, item, 0);
      return;
    }
    hide Shows;
    var i := 0;
    while i < Expected(t)
      invariant i <= Expected(t)
      invariant forall k :: 0 <= k < i ==> !Shows(r, t, item, k)
    {
      if Shows(r, t, item, i) { return true; }
      i := i + 1;
    }
  }

  method AppendExpectedLockEvidence(r: Reader, t: Target, existing: seq<Item>, observed: seq<Item>) returns (kept: seq<Item>)
    ensures kept == Retained(r, t, existing, observed)
  {
    hide ShowsSome, SameEdge;
    kept := existing;
    for i := 0 to |observed|
      invariant kept == Retained(r, t, existing, observed[..i])
    {
      var candidate := observed[i];
      assert observed[..i + 1][..i] == observed[..i];
      var expected := IsExpectedLockEvidence(r, t, candidate);
      if !expected { continue; }
      var duplicate := false;
      var k := 0;
      while k < |kept| && !duplicate
        invariant k <= |kept|
        invariant duplicate <==> exists e :: e in kept[..k] && SameEdge(r, e, candidate)
      {
        assert kept[..k + 1] == kept[..k] + [kept[k]];
        if SameEdge(r, kept[k], candidate) { duplicate := true; }
        k := k + 1;
      }
      assert duplicate <==> exists e :: e in kept && SameEdge(r, e, candidate) by {
        if !duplicate { assert kept[..k] == kept; }
      }
      if !duplicate { kept := kept + [candidate]; }
    }
    assert observed[..|observed|] == observed;
  }

  /** The waits below number `n` that the item shows. */
  ghost function ShownBelow(r: Reader, t: Target, item: Item, n: nat): set<nat> {
    set i | i in ShownBy(r, t, item) && i < n
  }

  lemma ShownBelowFacts(r: Reader, t: Target, item: Item, n: nat, seen: set<nat>)
    ensures seen + ShownBelow(r, t, item, 0) == seen
    ensures ShownBelow(r, t, item, Expected(t)) == ShownBy(r, t, item)
    ensures n < Expected(t) ==>
              seen + ShownBelow(r, t, item, n + 1) ==
              if Shows(r, t, item, n) then (seen + ShownBelow(r, t, item, n)) + {n} else seen + ShownBelow(r, t, item, n)
  {
    hide Shows, Expected;
  }

  lemma MarksOfOne(t: Target, seen: set<nat>, i: nat)
    ensures i < |t.edges| ==> EdgeKeys(t, seen + {i}) == EdgeKeys(t, seen) + {EdgeKey(t.edges[i])}
    ensures i < |t.edges| ==> EdgeWaiters(t, seen + {i}) == EdgeWaiters(t, seen) + {t.edges[i].waiterTag}
    ensures i < |t.waiters| ==> WaiterTags(t, seen + {i}) == WaiterTags(t, seen) + {t.waiters[i].tag}
    ensures i + 1 < |t.chainTags| ==>
              TagKeys(t, seen + {i}) == TagKeys(t, seen) + {t.chainTags[i] + "->" + t.chainTags[i + 1]}
  {
    hide EdgeKey;
  }

  /** The marks one item sets; `true` in the source's maps is membership here. */
  method MarkEdges(r: Reader, t: Target, item: Item, tags: set<string>, keys: set<string>, depth: int, ghost seen: set<nat>)
    returns (tags': set<string>, keys': set<string>, depth': int)
    requires KindOf(t) == Edges
    requires tags == EdgeWaiters(t, seen) && keys == EdgeKeys(t, seen) && depth == DepthOf(t.edges, seen, |t.edges|)
    ensures var more := seen + ShownBy(r, t, item);
            tags' == EdgeWaiters(t, more) && keys' == EdgeKeys(t, more) && depth' == DepthOf(t.edges, more, |t.edges|)
  {
    hide EdgeKey, EdgeKeys, EdgeWaiters, DepthOf, ShownBelow, ShownBy;
    tags', keys', depth' := tags, keys, depth;
    if item.granted || item.relation != t.relation || !ModesMatch(r, t, item) || item.lockType != "transactionid" {
      ShownByNone(r, t, item, seen);
      return;
    }
    ShownBelowFacts(r, t, item, 0, seen);
    for i: nat := 0 to |t.edges|
      invariant var marked := seen + ShownBelow(r, t, item, i);
                && tags' == EdgeWaiters(t, marked) && keys' == EdgeKeys(t, marked)
                && depth' == DepthOf(t.edges, marked, |t.edges|)
    {
      ShownBelowFacts(r, t, item, i, seen);
      var edge := t.edges[i];
      if !r.role(item.blockerTag, edge.blockerTag) || !r.role(item.waiterTag, edge.waiterTag) { continue; }
      ghost var marked := seen + ShownBelow(r, t, item, i);
      DepthMark(t.edges, marked, |t.edges|, i);
      MarksOfOne(t, marked, i);
      keys' := keys' + {EdgeKey(edge)};
      tags' := tags' + {edge.waiterTag};
      if edge.depth > depth' { depth' := edge.depth; }
    }
  }

  lemma ShownByNone(r: Reader, t: Target, item: Item, seen: set<nat>)
    requires forall i: nat :: i < Expected(t) ==> !Shows(r, t, item, i)
    ensures seen + ShownBy(r, t, item) == seen
  {
    hide Shows, Expected;
  }

  lemma {:induction false} DepthMark(edges: seq<T.Edge>, seen: set<nat>, n: nat, i: nat)
    requires n <= |edges|
    ensures DepthOf(edges, seen, n) >= 0
    ensures DepthOf(edges, seen + {i}, n) ==
            if i < n then Max(DepthOf(edges, seen, n), edges[i].depth) else DepthOf(edges, seen, n)
  {
    if n > 0 { DepthMark(edges, seen, n - 1, i); }
  }

  method MarkWaiters(r: Reader, t: Target, item: Item, tags: set<string>, ghost seen: set<nat>) returns (tags': set<string>)
    requires KindOf(t) == Waiters && tags == WaiterTags(t, seen)
    ensures tags' == WaiterTags(t, seen + ShownBy(r, t, item))
  {
    hide WaiterTags, ShownBelow, ShownBy, Shows;
    tags' := tags;
    ShownBelowFacts(r, t, item, 0, seen);
    for i: nat := 0 to |t.waiters|
      invariant tags' == WaiterTags(t, seen + ShownBelow(r, t, item, i))
    {
      ShownBelowFacts(r, t, item, i, seen);
      MarksOfOne(t, seen + ShownBelow(r, t, item, i), i);
      if Shows(r, t, item, i) { tags' := tags' + {t.waiters[i].tag}; }
    }
  }

  method VerifyConfiguredLock(r: Reader, t: Target, evidence: seq<Item>) returns (v: Verdict)
    requires t.waiters != []
    ensures v == Verify(r, t, evidence)
  {
    hide EdgeKeys, EdgeWaiters, WaiterTags, ShownBy, FirstShown;
    var tags: set<string>, keys: set<string>, depth := {}, {}, 0;
    NothingMarked(t);
    for i := 0 to |evidence|
      invariant KindOf(t) == Edges ==>
                  var seen := Seen(r, t, evidence[..i]);
                  tags == EdgeWaiters(t, seen) && keys == EdgeKeys(t, seen) && depth == DepthOf(t.edges, seen, |t.edges|)
      invariant KindOf(t) == Waiters ==> tags == WaiterTags(t, Seen(r, t, evidence[..i]))
    {
      assert evidence[..i + 1][..i] == evidence[..i];
      ghost var seen := Seen(r, t, evidence[..i]);
      if KindOf(t) == Edges {
        tags, keys, depth := MarkEdges(r, t, evidence[i], tags, keys, depth, seen);
      } else {
        tags := MarkWaiters(r, t, evidence[i], tags, seen);
      }
    }
    assert evidence[..|evidence|] == evidence;
    if KindOf(t) == Edges {
      v := Verdict(|keys| == |t.edges| && |tags| == |t.waiters| && depth == t.depth, |tags|, |keys|, depth, None);
    } else {
      v := Verdict(|tags| == |t.waiters| && (t.rowChain ==> t.edges == [] && t.depth == 0), |tags|, 0, 0, None);
    }
  }

  lemma {:induction false} NoDepth(edges: seq<T.Edge>, n: nat)
    requires n <= |edges|
    ensures DepthOf(edges, {}, n) == 0
  {
    if n > 0 { NoDepth(edges, n - 1); }
  }

  lemma NothingMarked(t: Target)
    ensures EdgeWaiters(t, {}) == {} && EdgeKeys(t, {}) == {} && WaiterTags(t, {}) == {}
    ensures DepthOf(t.edges, {}, |t.edges|) == 0
  {
    NoDepth(t.edges, |t.edges|);
  }

  method VerifyLock(r: Reader, t: Target, evidence: seq<Item>) returns (v: Verdict)
    ensures v == Verify(r, t, evidence)
  {
    if t.waiters != [] {
      v := VerifyConfiguredLock(r, t, evidence);
    } else if t.rowChain {
      v := VerifyRowChain(r, t, evidence);
    } else {
      v := VerifyDirect(r, t, evidence);
    }
  }

  method VerifyDirect(r: Reader, t: Target, evidence: seq<Item>) returns (v: Verdict)
    requires KindOf(t) == Direct
    ensures v == Verify(r, t, evidence)
  {
    hide Seen, Shows;
    for i := 0 to |evidence|
      invariant FirstShown(r, t, evidence[..i]) == None
    {
      assert evidence[..i + 1][..i] == evidence[..i];
      var expected := IsExpectedLockEvidence(r, t, evidence[i]);
      if expected {
        FirstStays(r, t, evidence, i + 1);
        return Verdict(true, 0, 0, 0, Some(evidence[i]));
      }
    }
    assert evidence[..|evidence|] == evidence;
    v := Verdict(false, 0, 0, 0, None);
  }

  lemma FirstStays(r: Reader, t: Target, evidence: seq<Item>, n: nat)
    requires n <= |evidence| && FirstShown(r, t, evidence[..n]).Some?
    ensures FirstShown(r, t, evidence) == FirstShown(r, t, evidence[..n])
  {
    hide *;
    SeenJoin(r, t, evidence[..n], evidence[n..]);
    assert evidence[..n] + evidence[n..] == evidence;
  }

  method VerifyRowChain(r: Reader, t: Target, evidence: seq<Item>) returns (v: Verdict)
    requires KindOf(t) == Tags
    ensures v == Verify(r, t, evidence)
  {
    hide ShownBy, FirstShown;
    if |t.chainTags| < 3 { return Verdict(false, 0, 0, 0, None); }
    var keys: set<string> := {};
    for i := 0 to |evidence|
      invariant keys == TagKeys(t, Seen(r, t, evidence[..i]))
    {
      assert evidence[..i + 1][..i] == evidence[..i];
      keys := MarkTags(r, t, evidence[i], keys, Seen(r, t, evidence[..i]));
    }
    assert evidence[..|evidence|] == evidence;
    v := Verdict(|keys| == |t.chainTags| - 1, 0, |keys|, 0, None);
  }

  method MarkTags(r: Reader, t: Target, item: Item, keys: set<string>, ghost seen: set<nat>) returns (keys': set<string>)
    requires KindOf(t) == Tags && t.chainTags != [] && keys == TagKeys(t, seen)
    ensures keys' == TagKeys(t, seen + ShownBy(r, t, item))
  {
    hide TagKeys, ShownBelow, ShownBy, Shows;
    keys' := keys;
    ShownBelowFacts(r, t, item, 0, seen);
    for i: nat := 0 to |t.chainTags| - 1
      invariant keys' == TagKeys(t, seen + ShownBelow(r, t, item, i))
    {
      ShownBelowFacts(r, t, item, i, seen);
      MarksOfOne(t, seen + ShownBelow(r, t, item, i), i);
      if Shows(r, t, item, i) { keys' := keys' + {t.chainTags[i] + "->" + t.chainTags[i + 1]}; }
    }
  }
}
