/** Merging the two recovery sources and ordering the inverses (internal/gsbench/restore.go:537-607, 1092-1211). */
module RestorePlan {
  import opened Actions
  import opened CanonicalJson
  import opened Sorting
  import opened Text

  datatype Identity = Identity(runID: string, sequence: int, kind: ActionKind, target: string)

  function IdentityOf(a: Action): Identity { Identity(a.runID, a.sequence, a.kind, a.target) }

  ghost predicate SameRestoreAction(left: Action, right: Action) {
    && left.sequence == right.sequence && left.runID == right.runID && left.scenario == right.scenario
    && left.kind == right.kind && left.product == right.product
    && left.target == right.target && left.node == right.node
    && SamePayload(left.original, right.original) && SamePayload(left.forward, right.forward)
    && SamePayload(left.inverse, right.inverse) && SamePayload(left.verify, right.verify)
  }

  method CompareActions(left: Action, right: Action) returns (same: bool)
    ensures same <==> SameRestoreAction(left, right)
  {
    hide SamePayload;
    same := left.sequence == right.sequence && left.runID == right.runID && left.scenario == right.scenario
      && left.kind == right.kind && left.product == right.product
      && left.target == right.target && left.node == right.node;
    if same { same := EqualRestoreJson(left.original, right.original); }
    if same { same := EqualRestoreJson(left.forward, right.forward); }
    if same { same := EqualRestoreJson(left.inverse, right.inverse); }
    if same { same := EqualRestoreJson(left.verify, right.verify); }
  }

  /** Being mirrors of one action is an equivalence, because the comparison of payloads is. */
  lemma SameIsEquivalence(a: Action, b: Action, c: Action)
    ensures SameRestoreAction(a, a)
    ensures SameRestoreAction(a, b) ==> SameRestoreAction(b, a)
    ensures SameRestoreAction(a, b) && SameRestoreAction(b, c) ==> SameRestoreAction(a, c)
  {
    hide SamePayload;
    SamePayloadEquivalence(a.original, b.original, c.original);
    SamePayloadEquivalence(a.forward, b.forward, c.forward);
    SamePayloadEquivalence(a.inverse, b.inverse, c.inverse);
    SamePayloadEquivalence(a.verify, b.verify, c.verify);
  }

  // ---- merging ----

  predicate Wants(requested: string, a: Action) { requested == "" || a.runID == requested }

  function Wanted(requested: string, xs: seq<Action>): seq<Action> {
    if xs == [] then []
    else Wanted(requested, xs[..|xs| - 1]) + (if Wants(requested, xs[|xs| - 1]) then [xs[|xs| - 1]] else [])
  }

  /** Two actions that cannot both be kept. */
  predicate Clash(x: Action, y: Action) {
    x.runID == y.runID && x.sequence == y.sequence && (x.sequence > 0 || IdentityOf(x) == IdentityOf(y))
  }

  /** Of actions that clash only the first is kept. */
  function Merged(xs: seq<Action>): seq<Action> {
    if xs == [] then []
    else
      var last := xs[|xs| - 1];
      Merged(xs[..|xs| - 1]) + (if exists y :: y in xs[..|xs| - 1] && Clash(y, last) then [] else [last])
  }

  /** Actions that clash are mirrors of one action. */
  ghost predicate Agree(x: Action, y: Action) {
    Clash(x, y) ==> SameRestoreAction(x, y)
  }

  ghost predicate Consistent(xs: seq<Action>) {
    forall x, y :: x in xs && y in xs ==> Agree(x, y)
  }

  datatype Conflict = IdentityConflict(a: Action) | MirrorConflict(a: Action)

  /** The variables the two merge loops share. */
  datatype Kept = Kept(
    actions: seq<Action>, positions: map<Identity, nat>, stateIdentities: map<(string, int), Identity>
  )

  /** The maps index the kept actions; `seen` is what was offered so far. */
  ghost predicate Indexed(k: Kept, seen: seq<Action>) {
    && (forall id :: id in k.positions ==>
          k.positions[id] < |k.actions| && IdentityOf(k.actions[k.positions[id]]) == id)
    && (forall a :: a in k.actions ==> a in seen && IdentityOf(a) in k.positions && Occupied(k, a))
    && (forall key :: key in k.stateIdentities ==> (
          var id := k.stateIdentities[key];
          key.1 > 0 && id in k.positions && id.runID == key.0 && id.sequence == key.1))
    && (forall s :: s in seen ==> Occupied(k, s))
    && (forall id :: id in k.positions && id.sequence > 0 ==>
          (id.runID, id.sequence) in k.stateIdentities && k.stateIdentities[(id.runID, id.sequence)] == id)
  }

  /** Some kept action clashes with `a`. */
  predicate Occupied(k: Kept, a: Action) {
    if a.sequence > 0 then (a.runID, a.sequence) in k.stateIdentities else IdentityOf(a) in k.positions
  }

  ghost function Holder(k: Kept, seen: seq<Action>, a: Action): Action
    requires Indexed(k, seen) && Occupied(k, a)
  {
    k.actions[k.positions[if a.sequence > 0 then k.stateIdentities[(a.runID, a.sequence)] else IdentityOf(a)]]
  }

  lemma HolderClashes(k: Kept, seen: seq<Action>, a: Action)
    requires Indexed(k, seen)
    ensures Occupied(k, a) <==> exists y :: y in seen && Clash(y, a)
    ensures Occupied(k, a) ==> Holder(k, seen, a) in seen && Clash(Holder(k, seen, a), a)
  {
    if Occupied(k, a) {
      assert Holder(k, seen, a) in k.actions;
    }
  }

  lemma PositionsNext(k: Kept, seen: seq<Action>, a: Action, k': Kept)
    requires Indexed(k, seen) && !Occupied(k, a)
    requires k' == Kept(k.actions + [a], k.positions[IdentityOf(a) := |k.actions|],
                        if a.sequence > 0 then k.stateIdentities[(a.runID, a.sequence) := IdentityOf(a)]
                        else k.stateIdentities)
    ensures IdentityOf(a) !in k.positions
    ensures forall d :: d in k'.positions ==>
              k'.positions[d] < |k'.actions| && IdentityOf(k'.actions[k'.positions[d]]) == d
    ensures forall d :: d in k'.positions && d.sequence > 0 ==>
              (d.runID, d.sequence) in k'.stateIdentities && k'.stateIdentities[(d.runID, d.sequence)] == d
  {
    var id := IdentityOf(a);
    assert id !in k.positions;
    forall d | d in k'.positions
      ensures k'.positions[d] < |k'.actions| && IdentityOf(k'.actions[k'.positions[d]]) == d
      ensures d.sequence > 0 ==>
                (d.runID, d.sequence) in k'.stateIdentities && k'.stateIdentities[(d.runID, d.sequence)] == d
    {
      if d != id { assert d in k.positions; }
    }
  }

  lemma StatesNext(k: Kept, seen: seq<Action>, a: Action, k': Kept)
    requires Indexed(k, seen) && !Occupied(k, a)
    requires k' == Kept(k.actions + [a], k.positions[IdentityOf(a) := |k.actions|],
                        if a.sequence > 0 then k.stateIdentities[(a.runID, a.sequence) := IdentityOf(a)]
                        else k.stateIdentities)
    ensures forall j :: j in k'.stateIdentities ==> (
              var d := k'.stateIdentities[j];
              j.1 > 0 && d in k'.positions && d.runID == j.0 && d.sequence == j.1)
    ensures forall s :: s in seen + [a] ==> Occupied(k', s)
    ensures forall b :: b in k'.actions ==> b in seen + [a] && IdentityOf(b) in k'.positions && Occupied(k', b)
  {
    assert k.positions.Keys <= k'.positions.Keys && k.stateIdentities.Keys <= k'.stateIdentities.Keys;
    forall j | j in k'.stateIdentities
      ensures var d := k'.stateIdentities[j]; j.1 > 0 && d in k'.positions && d.runID == j.0 && d.sequence == j.1
    {
      if j !in k.stateIdentities { assert j == (a.runID, a.sequence); }
    }
    forall s | s in seen + [a] ensures Occupied(k', s) {
      if s != a { assert s in seen && Occupied(k, s); }
    }
    forall b | b in k'.actions ensures b in seen + [a] && IdentityOf(b) in k'.positions && Occupied(k', b) {
      if b != a { assert b in k.actions; }
    }
  }

  lemma IndexNext(k: Kept, seen: seq<Action>, a: Action)
    requires Indexed(k, seen) && !Occupied(k, a)
    ensures Indexed(Kept(k.actions + [a], k.positions[IdentityOf(a) := |k.actions|],
                         if a.sequence > 0 then k.stateIdentities[(a.runID, a.sequence) := IdentityOf(a)]
                         else k.stateIdentities), seen + [a])
    ensures IdentityOf(a) !in k.positions
  {
    var states := if a.sequence > 0 then k.stateIdentities[(a.runID, a.sequence) := IdentityOf(a)] else k.stateIdentities;
    var k' := Kept(k.actions + [a], k.positions[IdentityOf(a) := |k.actions|], states);
    PositionsNext(k, seen, a, k');
    StatesNext(k, seen, a, k');
    hide Occupied, IdentityOf;
  }

  /** A new action keeps the list consistent when it agrees with the one it clashes with. */
  lemma ConsistentSnoc(k: Kept, seen: seq<Action>, a: Action)
    requires Indexed(k, seen)
    ensures Consistent(seen + [a]) <==>
            Consistent(seen) && (Occupied(k, a) ==> SameRestoreAction(Holder(k, seen, a), a))
  {
    HolderClashes(k, seen, a);
    var next := seen + [a];
    if Consistent(next) {
      forall x, y | x in seen && y in seen ensures Agree(x, y) {
        assert x in next && y in next;
      }
      if Occupied(k, a) { assert Holder(k, seen, a) in next && a in next && Agree(Holder(k, seen, a), a); }
    }
    if Consistent(seen) && (Occupied(k, a) ==> SameRestoreAction(Holder(k, seen, a), a)) {
      forall x, y | x in next && y in next ensures Agree(x, y) {
        SameIsEquivalence(a, a, a);
        if x in seen && y in seen {
          assert Agree(x, y);
        } else if x in seen {
          NewAgrees(k, seen, a, x);
        } else if y in seen {
          NewAgrees(k, seen, a, y);
        }
      }
    }
  }

  lemma NewAgrees(k: Kept, seen: seq<Action>, a: Action, x: Action)
    requires Indexed(k, seen) && x in seen && Consistent(seen)
    requires Occupied(k, a) ==> SameRestoreAction(Holder(k, seen, a), a)
    ensures Agree(x, a) && Agree(a, x)
  {
    HolderClashes(k, seen, a);
    if Clash(x, a) {
      var y := Holder(k, seen, a);
      assert Agree(x, y);
      assert Clash(x, y);
      SameIsEquivalence(x, y, a);
      SameIsEquivalence(x, a, x);
    }
  }

  ghost predicate Merging(k: Kept, errs: seq<Conflict>, seen: seq<Action>) {
    Indexed(k, seen) && k.actions == Merged(seen) && (errs == [] <==> Consistent(seen))
  }

  /** How the two lookups of `Add` tell the cases apart. */
  lemma Lookups(k: Kept, seen: seq<Action>, a: Action)
    requires Indexed(k, seen)
    ensures var id, key := IdentityOf(a), (a.runID, a.sequence);
            if id in k.positions then
              && k.positions[id] < |k.actions|
              && (a.sequence > 0 ==> key in k.stateIdentities && k.stateIdentities[key] == id)
              && Occupied(k, a) && Holder(k, seen, a) == k.actions[k.positions[id]]
            else if Occupied(k, a) then
              && a.sequence > 0 && key in k.stateIdentities && k.stateIdentities[key] != id
              && !SameRestoreAction(Holder(k, seen, a), a)
            else
              a.sequence > 0 ==> key !in k.stateIdentities
    ensures Occupied(k, a) ==> Indexed(k, seen + [a])
  {
  }

  method Add(k: Kept, errs: seq<Conflict>, action: Action, ghost seen: seq<Action>)
    returns (k': Kept, errs': seq<Conflict>)
    requires Merging(k, errs, seen)
    ensures Merging(k', errs', seen + [action])
  {
    hide SameRestoreAction, Indexed, Consistent;
    HolderClashes(k, seen, action);
    ConsistentSnoc(k, seen, action);
    assert (seen + [action])[..|seen|] == seen;
    assert Merged(seen + [action]) == k.actions + (if Occupied(k, action) then [] else [action]);
    hide Merged;
    Lookups(k, seen, action);
    if !Occupied(k, action) { IndexNext(k, seen, action); }
    hide Occupied, Holder;
    k', errs' := k, errs;
    var identity := IdentityOf(action);
    var key := (action.runID, action.sequence);
    if action.sequence > 0 {
      if key in k.stateIdentities && k.stateIdentities[key] != identity {
        errs' := errs + [IdentityConflict(action)];
        return;
      }
      k' := k.(stateIdentities := k.stateIdentities[key := identity]);
    }
    if identity in k.positions {
      assert k' == k;
      var same := CompareActions(k.actions[k.positions[identity]], action);
      if !same {
        errs' := errs + [MirrorConflict(action)];
      }
      return;
    }
    k' := k'.(positions := k.positions[identity := |k.actions|], actions := k.actions + [action]);
  }

  method AddAll(k: Kept, errs: seq<Conflict>, xs: seq<Action>, requested: string,
                ghost seen: seq<Action>) returns (k': Kept, errs': seq<Conflict>)
    requires Merging(k, errs, seen)
    ensures Merging(k', errs', seen + Wanted(requested, xs))
  {
    assert seen + Wanted(requested, xs[..0]) == seen;
    hide Merging, Wanted, Wants;
    k', errs' := k, errs;
    for i := 0 to |xs|
      invariant Merging(k', errs', seen + Wanted(requested, xs[..i]))
    {
      WantedSnoc(requested, xs, i);
      if Wants(requested, xs[i]) {
        ghost var before := seen + Wanted(requested, xs[..i]);
        k', errs' := Add(k', errs', xs[i], before);
        assert before + [xs[i]] == seen + Wanted(requested, xs[..i + 1]);
      }
    }
    assert xs[..|xs|] == xs;
  }

  method MergeRestoreActions(database: seq<Action>, local: seq<Action>, requested: string)
    returns (actions: seq<Action>, errs: seq<Conflict>)
    ensures actions == Merged(Wanted(requested, database) + Wanted(requested, local))
    ensures errs == [] <==> Consistent(Wanted(requested, database) + Wanted(requested, local))
  {
    hide Consistent, Wanted;
    assert Merging(Kept([], map[], map[]), [], []) by { MergingStarts(); }
    hide Indexed, Merged;
    var k: Kept;
    k, errs := AddAll(Kept([], map[], map[]), [], database, requested, []);
    assert [] + Wanted(requested, database) == Wanted(requested, database);
    k, errs := AddAll(k, errs, local, requested, Wanted(requested, database));
    actions := k.actions;
  }

  lemma WantedSnoc(requested: string, xs: seq<Action>, i: nat)
    requires i < |xs|
    ensures Wanted(requested, xs[..i + 1])
         == if Wants(requested, xs[i]) then Wanted(requested, xs[..i]) + [xs[i]] else Wanted(requested, xs[..i])
  {
    assert xs[..i + 1][..i] == xs[..i];
  }

  lemma MergingStarts()
    ensures Merging(Kept([], map[], map[]), [], [])
  {
  }

  lemma MergedSnoc(rest: seq<Action>, last: Action)
    ensures Merged(rest + [last])
         == if exists y :: y in rest && Clash(y, last) then Merged(rest) else Merged(rest) + [last]
  {
    assert (rest + [last])[..|rest|] == rest;
  }

  /** Each identity, and each positive journal id of a run, is kept at most once. */
  lemma {:induction false} MergedOnce(xs: seq<Action>)
    ensures forall a :: a in Merged(xs) ==> a in xs
    ensures forall i, j :: 0 <= i < j < |Merged(xs)| ==> !Clash(Merged(xs)[i], Merged(xs)[j])
  {
    if xs != [] {
      var rest, last := xs[..|xs| - 1], xs[|xs| - 1];
      MergedOnce(rest);
      assert xs == rest + [last];
      MergedSnoc(rest, last);
      hide Merged, Clash;
    }
  }

  /** Every action offered is represented by one that was kept. */
  lemma {:induction false} MergedCovers(xs: seq<Action>, x: Action) returns (a: Action)
    requires x in xs
    ensures a in Merged(xs) && Clash(a, x)
  {
    var rest, last := xs[..|xs| - 1], xs[|xs| - 1];
    assert xs == rest + [last];
    MergedSnoc(rest, last);
    hide Merged;
    if x in rest {
      a := MergedCovers(rest, x);
    } else if y :| y in rest && Clash(y, last) {
      a := MergedCovers(rest, y);
    } else {
      a := last;
    }
  }

  // ---- ordering ----

  const SESSIONS: nat := 0
  const EXTERNAL_CONTROL: nat := 1
  const CONFIGURATION: nat := 2
  const DATABASE: nat := 3

  /** Whether an inverse payload is an ANALYZE statement. */
  type Analyzes = string -> bool

  function Stage(a: Action): nat {
    if a.kind == SESSION_SET || a.kind == SESSION_TRANSACTION then SESSIONS
    else if a.kind == NETWORK_FIREWALL || a.kind == NETWORK_QDISC || a.kind == PROCESS_STATE
         || a.kind == CLOUD_FAULT_JOB then EXTERNAL_CONTROL
    else if a.kind == GUC_FILE_CHANGE || a.kind == NODE_ROLE then CONFIGURATION
    else DATABASE
  }

  function Priority(analyzes: Analyzes, a: Action): nat {
    if a.kind == NETWORK_QDISC || a.kind == NODE_ROLE then 1
    else if a.kind == PROCESS_STATE then 2
    else if a.kind == CLOUD_FAULT_JOB then 3
    else if a.kind == SQL_MUTATION || a.kind == DATA_BASELINE then if analyzes(a.inverse) then 1 else 0
    else if Stage(a) == DATABASE then 1
    else 0
  }

  /** The position of a run; a missing key reads as zero. */
  function Rank(runOrder: map<string, nat>, runID: string): nat {
    if runID in runOrder then runOrder[runID] else 0
  }

  predicate PlanLe(analyzes: Analyzes, runOrder: map<string, nat>, a: Action, b: Action) {
    if Stage(a) != Stage(b) then Stage(a) < Stage(b)
    else if Rank(runOrder, a.runID) != Rank(runOrder, b.runID) then Rank(runOrder, a.runID) < Rank(runOrder, b.runID)
    else if Priority(analyzes, a) != Priority(analyzes, b) then Priority(analyzes, a) < Priority(analyzes, b)
    else if a.sequence != b.sequence then a.sequence > b.sequence
    else if a.target != b.target then StringLt(a.target, b.target)
    else StringLe(a.kind, b.kind)
  }

  function PlanOrder(analyzes: Analyzes, runOrder: map<string, nat>): (Action, Action) -> bool {
    (a, b) => PlanLe(analyzes, runOrder, a, b)
  }

  lemma PlanTotal(analyzes: Analyzes, runOrder: map<string, nat>)
    ensures TotalPreorder(PlanOrder(analyzes, runOrder))
  {
    var le := PlanOrder(analyzes, runOrder);
    hide Stage, Priority, Rank, StringLe;
    forall a, b ensures le(a, b) || le(b, a) {
      StringLeTotal(a.target, b.target);
      StringLeTotal(a.kind, b.kind);
    }
    forall a, b, c | le(a, b) && le(b, c) ensures le(a, c) {
      StringLeTransitive(a.target, b.target, c.target);
      StringLeAntisymmetric(a.target, b.target);
      StringLeTransitive(a.kind, b.kind, c.kind);
    }
  }

  /** The order leaves no two actions of different identity tied, so the plan is unique. */
  lemma PlanUntied(analyzes: Analyzes, runOrder: map<string, nat>, xs: seq<Action>)
    requires forall i, j :: 0 <= i < j < |xs| ==> !Clash(xs[i], xs[j])
    requires forall a, b :: a in xs && b in xs && Rank(runOrder, a.runID) == Rank(runOrder, b.runID) ==> a.runID == b.runID
    ensures Untied(PlanOrder(analyzes, runOrder), xs)
  {
    hide Stage, Priority, Rank, StringLe;
    var le := PlanOrder(analyzes, runOrder);
    forall a, b | a in xs && b in xs && le(a, b) && le(b, a) ensures a == b {
      StringLeAntisymmetric(a.target, b.target);
      StringLeAntisymmetric(a.kind, b.kind);
      assert IdentityOf(a) == IdentityOf(b);
    }
  }

  // ---- the groups of the restore loop ----

  function Group(xs: seq<Action>, runID: string, stage: nat): seq<Action> {
    if xs == [] then []
    else (if xs[0].runID == runID && Stage(xs[0]) == stage then [xs[0]] else []) + Group(xs[1..], runID, stage)
  }

  method RestoreActionGroup(actions: seq<Action>, runID: string, stage: nat) returns (group: seq<Action>)
    ensures group == Group(actions, runID, stage)
  {
    group := [];
    for i := 0 to |actions|
      invariant group + Group(actions[i..], runID, stage) == Group(actions, runID, stage)
    {
      assert actions[i..][1..] == actions[i + 1..];
      if actions[i].runID == runID && Stage(actions[i]) == stage {
        group := group + [actions[i]];
      }
    }
  }

  /** What a plan is: the listed runs are distinct, and the actions are in the order above. */
  ghost predicate Planned(analyzes: Analyzes, runIDs: seq<string>, actions: seq<Action>) {
    && (forall i, j :: 0 <= i < j < |runIDs| ==> runIDs[i] != runIDs[j])
    && (forall a :: a in actions ==> a.runID in runIDs)
    && SortedBy(PlanOrder(analyzes, RunOrder(runIDs)), actions)
  }

  function RunOrder(runIDs: seq<string>): (m: map<string, nat>)
    ensures forall id :: id in m <==> id in runIDs
    ensures forall id :: id in m ==> m[id] < |runIDs| && runIDs[m[id]] == id
  {
    if runIDs == [] then map[]
    else RunOrder(runIDs[..|runIDs| - 1])[runIDs[|runIDs| - 1] := |runIDs| - 1]
  }

  predicate Earlier(runOrder: map<string, nat>, a: Action, stage: nat, run: nat) {
    Stage(a) < stage || (Stage(a) == stage && Rank(runOrder, a.runID) < run)
  }

  /** The actions that come before stage `stage` of run number `run`. */
  function Before(runOrder: map<string, nat>, xs: seq<Action>, stage: nat, run: nat): seq<Action> {
    if xs == [] then []
    else (if Earlier(runOrder, xs[0], stage, run) then [xs[0]] else []) + Before(runOrder, xs[1..], stage, run)
  }

  lemma EarlierStep(runIDs: seq<string>, a: Action, stage: nat, run: nat)
    requires run < |runIDs| && a.runID in runIDs && forall i, j :: 0 <= i < j < |runIDs| ==> runIDs[i] != runIDs[j]
    ensures var order := RunOrder(runIDs);
            && (a.runID == runIDs[run] <==> Rank(order, a.runID) == run)
            && (Earlier(order, a, stage, run + 1) <==>
                  Earlier(order, a, stage, run) || (a.runID == runIDs[run] && Stage(a) == stage))
            && !(Earlier(order, a, stage, run) && a.runID == runIDs[run] && Stage(a) == stage)
  {
    var order := RunOrder(runIDs);
    assert a.runID in order && runIDs[order[a.runID]] == a.runID;
  }

  lemma {:induction false} BeforeStep(
      analyzes: Analyzes, runIDs: seq<string>, xs: seq<Action>, stage: nat, run: nat)
    requires Planned(analyzes, runIDs, xs) && run < |runIDs|
    ensures Before(RunOrder(runIDs), xs, stage, run + 1)
         == Before(RunOrder(runIDs), xs, stage, run) + Group(xs, runIDs[run], stage)
  {
    if xs != [] {
      PlannedTail(analyzes, runIDs, xs);
      EarlierStep(runIDs, xs[0], stage, run);
      hide Planned, RunOrder, Stage, Rank, Earlier;
      BeforeStep(analyzes, runIDs, xs[1..], stage, run);
      var order := RunOrder(runIDs);
      var head, rest := [xs[0]], xs[1..];
      if xs[0].runID == runIDs[run] && Stage(xs[0]) == stage {
        NothingBefore(analyzes, runIDs, rest, xs[0], stage, run);
      }
      BeforeParts(head, Before(order, rest, stage, run), Group(rest, runIDs[run], stage));
    }
  }

  lemma BeforeParts(head: seq<Action>, before: seq<Action>, group: seq<Action>)
    ensures head + (before + group) == (head + before) + group
    ensures [] + before == before && [] + group == group && [] + (before + group) == before + group
  {
  }

  lemma PlannedTail(analyzes: Analyzes, runIDs: seq<string>, xs: seq<Action>)
    requires Planned(analyzes, runIDs, xs) && xs != []
    ensures Planned(analyzes, runIDs, xs[1..])
    ensures forall a :: a in xs[1..] ==> PlanLe(analyzes, RunOrder(runIDs), xs[0], a)
  {
    hide PlanLe, RunOrder;
    var le := PlanOrder(analyzes, RunOrder(runIDs));
    forall i, j | 0 <= i < j < |xs[1..]| ensures le(xs[1..][i], xs[1..][j]) { assert le(xs[i + 1], xs[j + 1]); }
    forall a | a in xs[1..] ensures PlanLe(analyzes, RunOrder(runIDs), xs[0], a) {
      var i :| 0 <= i < |xs[1..]| && xs[1..][i] == a;
      assert le(xs[0], xs[i + 1]);
    }
  }

  lemma {:induction false} NothingBefore(
      analyzes: Analyzes, runIDs: seq<string>, xs: seq<Action>, first: Action, stage: nat, run: nat)
    requires forall a :: a in xs ==> PlanLe(analyzes, RunOrder(runIDs), first, a)
    requires Stage(first) == stage && Rank(RunOrder(runIDs), first.runID) == run
    ensures Before(RunOrder(runIDs), xs, stage, run) == []
  {
    if xs != [] {
      NothingBefore(analyzes, runIDs, xs[1..], first, stage, run);
      assert PlanLe(analyzes, RunOrder(runIDs), first, xs[0]);
    }
  }

  /** A stage is over once its last run is; the last stage ends with everything done. */
  lemma {:induction false} StageEnds(runIDs: seq<string>, xs: seq<Action>, stage: nat)
    requires forall a :: a in xs ==> a.runID in runIDs
    ensures Before(RunOrder(runIDs), xs, stage, |runIDs|) == Before(RunOrder(runIDs), xs, stage + 1, 0)
    ensures Before(RunOrder(runIDs), xs, SESSIONS, 0) == []
    ensures Before(RunOrder(runIDs), xs, DATABASE + 1, 0) == xs
  {
    if xs != [] {
      assert xs[0] in xs;
      hide RunOrder, Stage;
      StageEnds(runIDs, xs[1..], stage);
      StageBounds(runIDs, xs[0]);
      hide Rank;
      assert [xs[0]] + xs[1..] == xs;
    }
  }

  lemma StageBounds(runIDs: seq<string>, a: Action)
    requires a.runID in runIDs
    ensures SESSIONS <= Stage(a) <= DATABASE && Rank(RunOrder(runIDs), a.runID) < |runIDs|
  {
  }

  // ---- the whole plan ----

  datatype Run = Run(runID: string, startedAt: int)

  /** The zero time. */
  const NEVER: int := 0

  function RunIDs(runs: seq<Run>): (ids: seq<string>)
    ensures |ids| == |runs| && forall i :: 0 <= i < |ids| ==> ids[i] == runs[i].runID
  {
    seq(|runs|, i requires 0 <= i < |runs| => runs[i].runID)
  }

  /** Latest first, and by descending id among runs that started together. */
  predicate RunLe(a: Run, b: Run) {
    a.startedAt > b.startedAt || (a.startedAt == b.startedAt && StringLe(b.runID, a.runID))
  }

  lemma RunTotal()
    ensures TotalPreorder(RunLe)
  {
    hide StringLe;
    forall a, b ensures RunLe(a, b) || RunLe(b, a) { StringLeTotal(a.runID, b.runID); }
    forall a, b, c | RunLe(a, b) && RunLe(b, c) ensures RunLe(a, c) {
      StringLeTransitive(c.runID, b.runID, a.runID);
    }
  }

  /** A discovered run that the plan keeps, under its trimmed id. */
  predicate Relevant(run: Run, requested: string) {
    var id := TrimSpace(run.runID);
    id != "" && (requested == "" || id == requested)
  }

  /** `byID` holds every relevant run of `runs` once, with the latest start seen. */
  ghost predicate Latest(byID: map<string, Run>, runs: seq<Run>, requested: string) {
    && (forall id :: id in byID ==>
          byID[id].runID == id
          && exists r :: r in runs && Relevant(r, requested) && TrimSpace(r.runID) == id
                         && r.startedAt == byID[id].startedAt)
    && (forall r :: r in runs && Relevant(r, requested) ==>
          TrimSpace(r.runID) in byID && r.startedAt <= byID[TrimSpace(r.runID)].startedAt)
  }

  method LatestRuns(runs: seq<Run>, requested: string) returns (byID: map<string, Run>)
    ensures Latest(byID, runs, requested)
  {
    hide TrimSpace;
    byID := map[];
    for i := 0 to |runs|
      invariant Latest(byID, runs[..i], requested)
    {
      var run := runs[i].(runID := TrimSpace(runs[i].runID));
      assert runs[..i + 1] == runs[..i] + [runs[i]];
      if run.runID == "" || (requested != "" && run.runID != requested) {
        assert Latest(byID, runs[..i + 1], requested);
        continue;
      }
      ghost var before := byID;
      if run.runID !in byID || run.startedAt > byID[run.runID].startedAt {
        byID := byID[run.runID := run];
      }
      LatestStep(before, runs[..i], runs[i], byID, requested);
    }
    assert runs[..|runs|] == runs;
  }

  lemma LatestStep(before: map<string, Run>, runs: seq<Run>, r: Run, after: map<string, Run>, requested: string)
    requires Latest(before, runs, requested) && Relevant(r, requested)
    requires var run := r.(runID := TrimSpace(r.runID));
             after == if run.runID !in before || run.startedAt > before[run.runID].startedAt
                      then before[run.runID := run] else before
    ensures Latest(after, runs + [r], requested)
  {
    hide TrimSpace;
    var next := runs + [r];
    forall id | id in after
      ensures after[id].runID == id
      ensures exists q :: q in next && Relevant(q, requested) && TrimSpace(q.runID) == id
                          && q.startedAt == after[id].startedAt
    {
      if id in before && after[id] == before[id] {
        var q :| q in runs && Relevant(q, requested) && TrimSpace(q.runID) == id && q.startedAt == after[id].startedAt;
        assert q in next;
      } else {
        assert r in next;
      }
    }
  }

  /** Runs that only the actions or the request name have not started. */
  method AddRun(byID: map<string, Run>, runID: string) returns (byID': map<string, Run>)
    ensures byID' == if runID in byID then byID else byID[runID := Run(runID, NEVER)]
  {
    byID' := if runID in byID then byID else byID[runID := Run(runID, NEVER)];
  }

  /** The values of the map, in any order. */
  method CollectRuns(byID: map<string, Run>) returns (runs: seq<Run>)
    requires forall id :: id in byID ==> byID[id].runID == id
    ensures Apart((a: Run, b: Run) => a.runID == b.runID, runs)
    ensures forall r :: r in runs <==> r.runID in byID && byID[r.runID] == r
  {
    runs := [];
    var rest := byID.Keys;
    while rest != {}
      invariant rest <= byID.Keys
      invariant forall i, j :: 0 <= i < j < |runs| ==> runs[i].runID != runs[j].runID
      invariant forall r :: r in runs <==> r.runID in byID && r.runID !in rest && byID[r.runID] == r
      decreases |rest|
    {
      var id :| id in rest;
      rest := rest - {id};
      assert forall r :: r in runs ==> r.runID != id;
      runs := runs + [byID[id]];
    }
  }

  /** The ids a plan covers. */
  ghost predicate Covered(id: string, discovered: seq<Run>, actions: seq<Action>, requested: string) {
    || (exists r :: r in discovered && Relevant(r, requested) && TrimSpace(r.runID) == id)
    || (exists a :: a in actions && a.runID == id)
    || (requested != "" && id == requested)
  }

  /** Every run with the start of its latest discovery, or none. */
  ghost predicate Starts(r: Run, discovered: seq<Run>, requested: string) {
    && (forall q :: q in discovered && Relevant(q, requested) && TrimSpace(q.runID) == r.runID ==>
          q.startedAt <= r.startedAt)
    && (r.startedAt == NEVER
        || exists q :: q in discovered && Relevant(q, requested) && TrimSpace(q.runID) == r.runID
                       && q.startedAt == r.startedAt)
  }

  method AddRuns(byID: map<string, Run>, actions: seq<Action>) returns (byID': map<string, Run>)
    ensures byID.Keys <= byID'.Keys && forall id :: id in byID ==> byID'[id] == byID[id]
    ensures forall id :: id in byID' && id !in byID ==>
              byID'[id] == Run(id, NEVER) && exists a :: a in actions && a.runID == id
    ensures forall a :: a in actions ==> a.runID in byID'
  {
    byID' := byID;
    for i := 0 to |actions|
      invariant byID.Keys <= byID'.Keys && forall id :: id in byID ==> byID'[id] == byID[id]
      invariant forall id :: id in byID' && id !in byID ==>
                  byID'[id] == Run(id, NEVER) && exists a :: a in actions && a.runID == id
      invariant forall a :: a in actions[..i] ==> a.runID in byID'
    {
      byID' := AddRun(byID', actions[i].runID);
    }
    assert actions[..|actions|] == actions;
  }

  method SortRuns(byID: map<string, Run>) returns (runs: seq<Run>)
    requires forall id :: id in byID ==> byID[id].runID == id
    ensures SortedBy(RunLe, runs) && Apart((a: Run, b: Run) => a.runID == b.runID, runs)
    ensures forall r :: r in runs ==> r.runID in byID && byID[r.runID] == r
    ensures forall id :: id in RunIDs(runs) <==> id in byID
  {
    hide RunLe;
    var collected := CollectRuns(byID);
    RunTotal();
    SortCorrect(RunLe, collected);
    runs := Sort(RunLe, collected);
    ApartPermutes((a: Run, b: Run) => a.runID == b.runID, collected, runs);
    forall id ensures id in RunIDs(runs) <==> id in byID {
      if id in byID { assert byID[id] in runs; }
    }
  }

  method PlanRuns(discovered: seq<Run>, actions: seq<Action>, requested: string) returns (runs: seq<Run>)
    ensures SortedBy(RunLe, runs) && Apart((a: Run, b: Run) => a.runID == b.runID, runs)
    ensures forall id :: id in RunIDs(runs) <==> Covered(id, discovered, actions, requested)
    ensures forall r :: r in runs ==> Starts(r, discovered, requested)
  {
    var latest := LatestRuns(discovered, requested);
    var byID := AddRuns(latest, actions);
    if requested != "" {
      byID := AddRun(byID, requested);
    }
    assert forall id :: id in byID ==> byID[id].runID == id;
    CoveredIs(latest, byID, discovered, actions, requested);
    hide *;
    runs := SortRuns(byID);
  }

  lemma CoveredIs(latest: map<string, Run>, byID: map<string, Run>, discovered: seq<Run>, actions: seq<Action>, requested: string)
    requires Latest(latest, discovered, requested)
    requires latest.Keys <= byID.Keys && forall id :: id in latest ==> byID[id] == latest[id]
    requires forall id :: id in byID && id !in latest ==>
               byID[id] == Run(id, NEVER) && ((exists a :: a in actions && a.runID == id) || (requested != "" && id == requested))
    requires forall a :: a in actions ==> a.runID in byID
    requires requested != "" ==> requested in byID
    ensures forall id :: id in byID <==> Covered(id, discovered, actions, requested)
    ensures forall id :: id in byID ==> Starts(byID[id], discovered, requested)
  {
    hide TrimSpace, Relevant;
  }

  method NumberRuns(runs: seq<Run>) returns (runOrder: map<string, nat>)
    requires Apart((a: Run, b: Run) => a.runID == b.runID, runs)
    ensures runOrder == RunOrder(RunIDs(runs))
  {
    runOrder := map[];
    var ids := RunIDs(runs);
    for index := 0 to |runs|
      invariant runOrder == RunOrder(ids[..index])
    {
      assert ids[..index + 1][..index] == ids[..index];
      runOrder := runOrder[runs[index].runID := index];
    }
    assert ids[..|runs|] == ids;
  }

  method PrepareRestorePlan(
      analyzes: Analyzes,
      discovered: seq<Run>, database: seq<Action>, local: seq<Action>, requested: string)
    returns (runs: seq<Run>, actions: seq<Action>, errs: seq<Conflict>)
    ensures var wanted := Wanted(requested, database) + Wanted(requested, local);
            && multiset(actions) == multiset(Merged(wanted))
            && (errs == [] <==> Consistent(wanted))
    ensures Planned(analyzes, RunIDs(runs), actions)
    ensures SortedBy(RunLe, runs)
    ensures forall id :: id in RunIDs(runs) <==> Covered(id, discovered, actions, requested)
    ensures forall r :: r in runs ==> Starts(r, discovered, requested)
  {
    hide Wanted, Merged, RunLe, Relevant, PlanLe;
    var merged: seq<Action>;
    merged, errs := MergeRestoreActions(database, local, requested);
    runs := PlanRuns(discovered, merged, requested);
    var runOrder := NumberRuns(runs);
    PlanTotal(analyzes, runOrder);
    SortCorrect(PlanOrder(analyzes, runOrder), merged);
    actions := Sort(PlanOrder(analyzes, runOrder), merged);
    DistinctIds(runs);
    forall id ensures id in RunIDs(runs) <==> Covered(id, discovered, actions, requested) {
      assert Covered(id, discovered, actions, requested) <==> Covered(id, discovered, merged, requested);
    }
    forall a | a in actions ensures a.runID in RunIDs(runs) {
      assert a in merged && Covered(a.runID, discovered, merged, requested);
    }
  }

  lemma DistinctIds(runs: seq<Run>)
    requires Apart((a: Run, b: Run) => a.runID == b.runID, runs)
    ensures forall i, j :: 0 <= i < j < |RunIDs(runs)| ==> RunIDs(runs)[i] != RunIDs(runs)[j]
  {
    var clash := (a: Run, b: Run) => a.runID == b.runID;
    forall i, j | 0 <= i < j < |RunIDs(runs)| ensures RunIDs(runs)[i] != RunIDs(runs)[j] {
      assert !clash(runs[i], runs[j]);
    }
  }

  /** The plan depends on the merged actions and runs alone, and names no identity twice. */
  lemma PlanIsDetermined(analyzes: Analyzes, runIDs: seq<string>, wanted: seq<Action>, plan: seq<Action>, other: seq<Action>)
    requires Planned(analyzes, runIDs, plan) && Planned(analyzes, runIDs, other)
    requires multiset(plan) == multiset(Merged(wanted)) == multiset(other)
    ensures plan == other
    ensures forall i, j :: 0 <= i < j < |plan| ==> !Clash(plan[i], plan[j])
  {
    hide Merged, PlanLe;
    MergedOnce(wanted);
    ApartPermutes(Clash, Merged(wanted), plan);
    forall a, b | a in plan && b in plan && Rank(RunOrder(runIDs), a.runID) == Rank(RunOrder(runIDs), b.runID)
      ensures a.runID == b.runID
    {
    }
    PlanUntied(analyzes, RunOrder(runIDs), plan);
    OneArrangement(PlanOrder(analyzes, RunOrder(runIDs)), plan, other);
  }

  /** Within one stage, run and priority, later actions are undone first. */
  lemma NewestFirst(analyzes: Analyzes, runIDs: seq<string>, plan: seq<Action>, i: nat, j: nat)
    requires Planned(analyzes, runIDs, plan) && i < j < |plan|
    ensures Stage(plan[i]) <= Stage(plan[j])
    ensures (Stage(plan[i]) == Stage(plan[j]) && plan[i].runID == plan[j].runID
             && Priority(analyzes, plan[i]) == Priority(analyzes, plan[j])) ==> plan[i].sequence >= plan[j].sequence
  {
    hide Stage, Priority;
    assert PlanOrder(analyzes, RunOrder(runIDs))(plan[i], plan[j]);
  }
}
