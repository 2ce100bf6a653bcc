/**
 * The write-ahead journal of mutations (internal/gsbench/journal.go:102-132, 149-205):
 * forward actions, restore passes and crashes as one transition system, and the two
 * methods of the source as producers of its runs.
 */
module Journal {
  import opened Common
  import opened Actions

  type Id = int

  /** An action as a restore pass discovered it; `skip` marks an inverse unsafe to repeat. */
  datatype Found = Found(id: Id, snapshot: MutationState, skip: bool)

  /** Where the process applying an action stands. */
  datatype Applying = Inserted | Forwarded(ok: bool)

  /** Where the restore pass stands; `Idle` between two actions. */
  datatype Restorer =
    | Idle
    | Trying(a: Found)
    | Claiming(a: Found)
    | Checking(a: Found)
    | Inverting(a: Found)
    | Confirming(a: Found)
    | Reconciling(a: Found)
    | Verified(a: Found)
    | Failing(a: Found)

  /**
   * `rows` is the journal table, `effects` the actions whose mutation may be present
   * in the outside world, `applying` the live appliers.
   */
  datatype World = World(
    rows: map<Id, MutationState>,
    effects: set<Id>,
    applying: map<Id, Applying>,
    restorer: Restorer
  )

  datatype Event =
    | Insert(id: Id, reply: Reply)
    | Forward(id: Id, ok: bool, touched: bool)
    | ApplierWrites(id: Id, reply: Reply)
    | ApplierDies(id: Id)
    | Begin(a: Found)
    | Reconcile(a: Found)
    | Preflight(ok: bool)
    | Claim(reply: Reply)
    | Verify(ok: bool)
    | Inverse(ok: bool, touched: bool)
    | WriteRestored(reply: Reply)
    | WriteFailed(reply: Reply)
    | RestorerDies

  // ---- the transition system ----

  /** The forward action of `id` is still to come. */
  predicate Inserting(w: World, id: Id) { id in w.applying && w.applying[id].Inserted? }

  /**
   * While the forward action is still to come, a reconciliation must not take up the action at all, and a
   * pass only when its snapshot is out of date, so that its claim will be refused.
   */
  predicate MayTakeUp(w: World, e: Event) {
    match e
    case Begin(a) => Inserting(w, a.id) ==> a.id in w.rows && w.rows[a.id] != a.snapshot
    case Reconcile(a) => !Inserting(w, a.id)
    case _ => true
  }

  /**
   * A pass is Begin, Preflight, Claim, ...; a reconciliation (internal/gsbench/app.go:2614-2658)
   * is Reconcile, Verify, WriteRestored. With `guarded`, actions are taken up only as `MayTakeUp` allows.
   */
  predicate Enabled(w: World, e: Event, guarded: bool) {
    match e
    case Insert(id, _) => id !in w.rows && id !in w.applying && id !in w.effects
    case Forward(id, _, _) => id in w.applying && w.applying[id] == Inserted
    case ApplierWrites(id, _) => id in w.applying && w.applying[id].Forwarded?
    case ApplierDies(id) => id in w.applying
    case Begin(a) =>
      w.restorer.Idle? && a.id in w.rows && a.snapshot != Restored && (guarded ==> MayTakeUp(w, e))
    case Reconcile(a) =>
      w.restorer.Idle? && a.id in w.rows && a.snapshot != Restored && a.skip && (guarded ==> MayTakeUp(w, e))
    case Preflight(_) => w.restorer.Trying?
    case Claim(_) => w.restorer.Claiming?
    case Verify(_) => w.restorer.Checking? || w.restorer.Confirming? || w.restorer.Reconciling?
    case Inverse(_, _) => w.restorer.Inverting?
    case WriteRestored(_) => w.restorer.Verified?
    case WriteFailed(_) => w.restorer.Failing?
    case RestorerDies => true
  }

  function Wrote(rows: map<Id, MutationState>, id: Id, state: MutationState, reply: Reply): map<Id, MutationState> {
    if reply == Lost then rows else rows[id := state]
  }

  function Next(w: World, e: Event, guarded: bool): World
    requires Enabled(w, e, guarded)
  {
    match e
    case Insert(id, reply) =>
      w.(rows := Wrote(w.rows, id, Planned, reply),
         applying := if reply == Done then w.applying[id := Inserted] else w.applying)
    case Forward(id, ok, touched) =>
      w.(effects := if ok || touched then w.effects + {id} else w.effects,
         applying := w.applying[id := Forwarded(ok)])
    case ApplierWrites(id, reply) =>
      w.(rows := Wrote(w.rows, id, if w.applying[id].ok then Applied else Planned, reply),
         applying := w.applying - {id})
    case ApplierDies(id) => w.(applying := w.applying - {id})
    case Begin(a) => w.(restorer := Trying(a))
    case Reconcile(a) => w.(restorer := Reconciling(a))
    case Preflight(ok) => w.(restorer := if ok then Claiming(w.restorer.a) else Failing(w.restorer.a))
    case Claim(reply) =>
      // The claim compares and swaps: a row that left its snapshot state is not taken.
      var a := w.restorer.a;
      var current := a.id in w.rows && w.rows[a.id] == a.snapshot;
      w.(rows := if current then Wrote(w.rows, a.id, Restoring, reply) else w.rows,
         restorer := if !current || reply != Done then Idle else if a.skip then Checking(a) else Inverting(a))
    case Verify(ok) =>
      // A successful verification is what establishes that the mutation is gone.
      var a := w.restorer.a;
      w.(effects := if ok then w.effects - {a.id} else w.effects,
         restorer := if ok then Verified(a) else if w.restorer.Checking? then Inverting(a)
                     else if w.restorer.Confirming? then Failing(a) else Idle)
    case Inverse(ok, touched) =>
      // Repeating an inverse may itself leave a mutation behind.
      var a := w.restorer.a;
      w.(effects := if touched then w.effects + {a.id} else w.effects,
         restorer := if ok then Confirming(a) else Failing(a))
    case WriteRestored(reply) => w.(rows := Wrote(w.rows, w.restorer.a.id, Restored, reply), restorer := Idle)
    case WriteFailed(reply) => w.(rows := Wrote(w.rows, w.restorer.a.id, RestoreFailed, reply), restorer := Idle)
    case RestorerDies => w.(restorer := Idle)
  }

  ghost predicate Path(w: World, es: seq<Event>, guarded: bool)
    decreases |es|
  {
    es == [] || (Enabled(w, es[0], guarded) && Path(Next(w, es[0], guarded), es[1..], guarded))
  }

  /** The world after `es`, stopping at the first event that is not enabled. */
  ghost function After(w: World, es: seq<Event>, guarded: bool): World
    decreases |es|
  {
    if es == [] || !Enabled(w, es[0], guarded) then w
    else After(Next(w, es[0], guarded), es[1..], guarded)
  }

  // ---- write-ahead safety ----

  /** Whatever may be present outside has a journal row that is not `restored`. */
  ghost predicate WriteAhead(w: World) {
    forall id :: id in w.effects ==> id in w.rows && w.rows[id] != Restored
  }

  /** The inductive invariant behind it. */
  ghost predicate Inv(w: World) {
    && WriteAhead(w)
    && (forall id :: id in w.applying ==> id in w.rows && (Inserting(w, id) ==> w.rows[id] != Restored))
    && (!w.restorer.Idle? ==> w.restorer.a.id in w.rows)
    && (!w.restorer.Idle? && Inserting(w, w.restorer.a.id) ==> Harmless(w))
    && (w.restorer.Checking? || w.restorer.Inverting? || w.restorer.Confirming? ==>
          w.rows[w.restorer.a.id] != Restored)
    && (w.restorer.Verified? ==> w.restorer.a.id !in w.effects)
  }

  /** The pass will not get to the inverse of the action it took up. */
  ghost predicate Harmless(w: World)
    requires !w.restorer.Idle? && w.restorer.a.id in w.rows
  {
    w.restorer.Failing?
    || ((w.restorer.Trying? || w.restorer.Claiming?) && w.rows[w.restorer.a.id] != w.restorer.a.snapshot)
  }

  const START: World := World(map[], {}, map[], Idle)

  lemma InvStep(w: World, e: Event)
    requires Inv(w) && Enabled(w, e, true)
    ensures Inv(Next(w, e, true))
  {
  }

  lemma {:induction false} InvPath(w: World, es: seq<Event>)
    requires Inv(w) && Path(w, es, true)
    ensures Inv(After(w, es, true))
    decreases |es|
  {
    hide Enabled, Next, Inv;
    if es != [] {
      InvStep(w, es[0]);
      InvPath(Next(w, es[0], true), es[1..]);
    }
  }

  /**
   * Over every interleaving of appliers, restore passes, failed store calls and crashes:
   * whenever a mutation may be present, its row exists and is not `restored`.
   */
  lemma WriteAheadAlways(es: seq<Event>)
    requires Path(START, es, true)
    ensures WriteAhead(After(START, es, true))
  {
    hide Path, After;
    InvPath(START, es);
  }

  predicate TakesUp(e: Event) { e.Begin? || e.Reconcile? }

  /** Where the guard is violated, some continuation hides the mutation: every take-up in it is a guarded one. */
  lemma Overtaking(w: World, e: Event) returns (es: seq<Event>)
    requires Inv(w) && TakesUp(e) && Enabled(w, e, false) && !MayTakeUp(w, e)
    ensures Path(Next(w, e, false), es, true) && !WriteAhead(After(Next(w, e, false), es, true))
  {
    hide Path, After;
    var a := e.a;
    var restored := w.(rows := w.rows[a.id := Restored], effects := w.effects - {a.id}, restorer := Idle);
    var hidden := Next(restored, Forward(a.id, true, true), true);
    assert a.id in hidden.effects && hidden.rows[a.id] == Restored;
    PathNil(hidden);
    es := PathCons(restored, Forward(a.id, true, true), [], hidden);
    if e.Reconcile? {
      var verified := w.(effects := w.effects - {a.id}, restorer := Verified(a));
      es := PathCons(verified, WriteRestored(Done), es, restored);
      es := PathCons(w.(restorer := Reconciling(a)), Verify(true), es, verified);
    } else {
      es := OvertakingPass(w, a, restored, es);
    }
  }

  lemma OvertakingPass(w: World, a: Found, restored: World, rest: seq<Event>) returns (es: seq<Event>)
    requires a.id in w.rows && w.rows[a.id] == a.snapshot && Path(restored, rest, true)
    requires restored == w.(rows := w.rows[a.id := Restored], effects := w.effects - {a.id}, restorer := Idle)
    ensures var begun := w.(restorer := Trying(a));
            Path(begun, es, true) && After(begun, es, true) == After(restored, rest, true)
  {
    hide Path, After;
    var claimed := w.(rows := w.rows[a.id := Restoring]);
    var verified := claimed.(effects := w.effects - {a.id}, restorer := Verified(a));
    assert claimed.rows[a.id := Restored] == restored.rows;
    es := PathCons(verified, WriteRestored(Done), rest, restored);
    if a.skip {
      es := PathCons(claimed.(restorer := Checking(a)), Verify(true), es, verified);
      es := PathCons(w.(restorer := Claiming(a)), Claim(Done), es, claimed.(restorer := Checking(a)));
    } else {
      es := PathCons(claimed.(restorer := Confirming(a)), Verify(true), es, verified);
      es := PathCons(claimed.(restorer := Inverting(a)), Inverse(true, false), es, claimed.(restorer := Confirming(a)));
      es := PathCons(w.(restorer := Claiming(a)), Claim(Done), es, claimed.(restorer := Inverting(a)));
    }
    es := PathCons(w.(restorer := Trying(a)), Preflight(true), es, w.(restorer := Claiming(a)));
  }

  /**
   * The guard is exact. In every reachable state an action may be taken up, without any continuation
   * hiding a mutation, exactly when its forward action is over, or never comes, or the claim is bound to fail.
   */
  lemma GuardIsExact(w: World, e: Event)
    requires Inv(w) && TakesUp(e) && Enabled(w, e, false)
    ensures MayTakeUp(w, e) <==>
            forall es :: Path(Next(w, e, false), es, true) ==> WriteAhead(After(Next(w, e, false), es, true))
  {
    hide Path, After;
    if MayTakeUp(w, e) {
      InvStep(w, e);
      forall es | Path(Next(w, e, false), es, true) ensures WriteAhead(After(Next(w, e, false), es, true)) {
        InvPath(Next(w, e, false), es);
      }
    } else {
      var es := Overtaking(w, e);
    }
  }

  /** An instance from the very start: a pass overtakes an applier that has yet to act. */
  lemma OvertakingHidesMutation() returns (es: seq<Event>)
    ensures Path(START, es, false) && !WriteAhead(After(START, es, false))
  {
    hide Path, After;
    var a := Found(1, Planned, true);
    var w := World(map[1 := Planned], {}, map[1 := Inserted], Idle);
    es := Overtaking(w, Begin(a));
    PathUnguarded(Next(w, Begin(a), false), es);
    es := PathConsUnguarded(w, Begin(a), es);
    es := PathConsUnguarded(START, Insert(1, Done), es);
  }

  lemma PathNil(w: World)
    ensures Path(w, [], true) && After(w, [], true) == w
  {
  }

  lemma PathCons(w: World, e: Event, rest: seq<Event>, v: World) returns (es: seq<Event>)
    requires Enabled(w, e, true) && Next(w, e, true) == v && Path(v, rest, true)
    ensures es == [e] + rest && Path(w, es, true) && After(w, es, true) == After(v, rest, true)
  {
    es := [e] + rest;
    assert es[1..] == rest;
  }

  lemma PathConsUnguarded(w: World, e: Event, rest: seq<Event>) returns (es: seq<Event>)
    requires Enabled(w, e, false) && Path(Next(w, e, false), rest, false)
    ensures es == [e] + rest && Path(w, es, false) && After(w, es, false) == After(Next(w, e, false), rest, false)
  {
    es := [e] + rest;
    assert es[1..] == rest;
  }

  lemma {:induction false} PathUnguarded(w: World, es: seq<Event>)
    requires Path(w, es, true)
    ensures Path(w, es, false) && After(w, es, false) == After(w, es, true)
    decreases |es|
  {
    if es != [] {
      assert Next(w, es[0], false) == Next(w, es[0], true);
      PathUnguarded(Next(w, es[0], true), es[1..]);
    }
  }

  // ---- what comes before a write ----

  predicate ByRestorer(e: Event) {
    !e.Insert? && !e.Forward? && !e.ApplierWrites? && !e.ApplierDies?
  }

  /** The last move of the restore pass in `es`, given the one before it. */
  function LastMove(es: seq<Event>, last: Option<Event>): Option<Event>
    decreases |es|
  {
    if es == [] then last else LastMove(es[1..], if ByRestorer(es[0]) then Some(es[0]) else last)
  }

  ghost predicate Tracks(w: World, last: Option<Event>) {
    && (w.restorer.Verified? ==> last == Some(Verify(true)))
    && (w.restorer.Inverting? && w.restorer.a.skip ==> last == Some(Verify(false)))
  }

  /**
   * On every run, `restored` is written only right after a successful verification, and the
   * inverse of a skip-marked action runs only right after a failed one.
   */
  lemma {:induction false} VerifiedFirst(w: World, es: seq<Event>, k: nat, last: Option<Event>, guarded: bool)
    requires Path(w, es, guarded) && Tracks(w, last) && k < |es|
    ensures es[k].WriteRestored? ==> LastMove(es[..k], last) == Some(Verify(true))
    ensures es[k].Inverse? ==>
              After(w, es[..k], guarded).restorer.Inverting?
              && (After(w, es[..k], guarded).restorer.a.skip ==> LastMove(es[..k], last) == Some(Verify(false)))
    decreases |es|
  {
    if k == 0 {
      assert es[..k] == [];
    } else {
      var next := if ByRestorer(es[0]) then Some(es[0]) else last;
      TracksStep(w, es[0], last, guarded);
      VerifiedFirst(Next(w, es[0], guarded), es[1..], k - 1, next, guarded);
      assert es[..k][0] == es[0] && es[..k][1..] == es[1..][..k - 1];
      assert es[1..][k - 1] == es[k];
    }
  }

  lemma TracksStep(w: World, e: Event, last: Option<Event>, guarded: bool)
    requires Enabled(w, e, guarded) && Tracks(w, last)
    ensures Tracks(Next(w, e, guarded), if ByRestorer(e) then Some(e) else last)
  {
  }

  /** A crash after any number of events leaves a run: the prefix, then the death of the process. */
  lemma {:induction false} PathJoin(w: World, es: seq<Event>, e: Event, guarded: bool)
    requires Path(w, es, guarded) && Enabled(After(w, es, guarded), e, guarded)
    ensures Path(w, es + [e], guarded)
    ensures After(w, es + [e], guarded) == Next(After(w, es, guarded), e, guarded)
    decreases |es|
  {
    hide Enabled, Next;
    if es == [] {
      assert es + [e] == [e] && [e][1..] == [];
    } else {
      PathJoin(Next(w, es[0], guarded), es[1..], e, guarded);
      assert (es + [e])[1..] == es[1..] + [e];
    }
  }

  // ---- one action, one pass ----

  /** What the executor and the store answer while one action is restored. */
  datatype Answers = Answers(
    preflight: bool, claim: Reply, check: bool, inverse: bool, touched: bool, confirm: bool, write: Reply
  )

  predicate Ready(w: World, a: Found) { a.id in w.rows && !Inserting(w, a.id) }

  predicate Taken(w: World, a: Found, o: Answers)
    requires Ready(w, a)
  {
    a.snapshot != Restored && o.preflight && o.claim == Done && w.rows[a.id] == a.snapshot
  }

  predicate Gone(a: Found, o: Answers) { (a.skip && o.check) || (o.inverse && o.confirm) }

  /** The world after one action was tried. */
  function Attempted(w: World, a: Found, o: Answers): (v: World)
    requires Ready(w, a)
    ensures v.applying == w.applying && forall b :: Ready(w, b) ==> Ready(v, b)
    ensures w.restorer.Idle? ==> v.restorer.Idle?
  {
    if a.snapshot == Restored then w
    else if !o.preflight then w.(rows := Wrote(w.rows, a.id, RestoreFailed, o.write))
    else if !Taken(w, a, o) then
      w.(rows := if w.rows[a.id] == a.snapshot then Wrote(w.rows, a.id, Restoring, o.claim) else w.rows)
    else
      w.(rows := Wrote(w.rows[a.id := Restoring], a.id, if Gone(a, o) then Restored else RestoreFailed, o.write),
         effects := if Gone(a, o) then w.effects - {a.id}
                    else if o.touched then w.effects + {a.id} else w.effects)
  }

  datatype Failure = Failure(id: Id, unmarked: bool)

  /** What the pass reports for one action; `unmarked` when its state write failed. */
  function Reported(w: World, a: Found, o: Answers): seq<Failure>
    requires Ready(w, a)
  {
    if a.snapshot == Restored then []
    else if !o.preflight then [Failure(a.id, o.write != Done)]
    else if !Taken(w, a, o) then if o.claim == Done then [] else [Failure(a.id, true)]
    else if Gone(a, o) && o.write == Done then []
    else [Failure(a.id, o.write != Done)]
  }

  ghost predicate AllReady(w: World, actions: seq<Found>) {
    forall i :: 0 <= i < |actions| ==> Ready(w, actions[i])
  }

  ghost function Passed(w: World, actions: seq<Found>, answers: seq<Answers>): World
    requires |actions| == |answers| && AllReady(w, actions)
    decreases |actions|
  {
    if actions == [] then w
    else Passed(Attempted(w, actions[0], answers[0]), actions[1..], answers[1..])
  }

  ghost function AllReported(w: World, actions: seq<Found>, answers: seq<Answers>): seq<Failure>
    requires |actions| == |answers| && AllReady(w, actions)
    decreases |actions|
  {
    if actions == [] then []
    else Reported(w, actions[0], answers[0])
         + AllReported(Attempted(w, actions[0], answers[0]), actions[1..], answers[1..])
  }

  /** The reports when every action is judged on its own, in the world the pass began in. */
  ghost function EachReported(w: World, actions: seq<Found>, answers: seq<Answers>): seq<Failure>
    requires |actions| == |answers| && AllReady(w, actions)
    decreases |actions|
  {
    if actions == [] then []
    else Reported(w, actions[0], answers[0]) + EachReported(w, actions[1..], answers[1..])
  }

  /** The rest of a pass after action i. */
  lemma PassStep(w: World, actions: seq<Found>, answers: seq<Answers>, i: nat)
    requires |actions| == |answers| && AllReady(w, actions) && i < |actions|
    ensures Ready(w, actions[i])
    ensures var v := Attempted(w, actions[i], answers[i]);
            && AllReady(v, actions)
            && Passed(w, actions[i..], answers[i..]) == Passed(v, actions[i + 1..], answers[i + 1..])
            && AllReported(w, actions[i..], answers[i..])
               == Reported(w, actions[i], answers[i]) + AllReported(v, actions[i + 1..], answers[i + 1..])
  {
    hide Attempted, Reported;
    assert actions[i..][1..] == actions[i + 1..] && answers[i..][1..] == answers[i + 1..];
  }

  lemma PassEnds(w: World, actions: seq<Found>, answers: seq<Answers>)
    requires |actions| == |answers| && AllReady(w, actions)
    ensures Passed(w, actions[|actions|..], answers[|actions|..]) == w
    ensures AllReported(w, actions[|actions|..], answers[|actions|..]) == []
  {
  }

  ghost predicate DistinctIds(actions: seq<Found>) {
    forall i, j :: 0 <= i < j < |actions| ==> actions[i].id != actions[j].id
  }

  ghost predicate AgreeAt(w: World, v: World, id: Id) {
    && (id in w.rows <==> id in v.rows) && (id in w.rows ==> w.rows[id] == v.rows[id])
    && (id in w.effects <==> id in v.effects) && w.applying == v.applying
  }

  /** Nothing another action of the pass does changes what becomes of this one. */
  lemma {:induction false} PassLeaves(w: World, actions: seq<Found>, answers: seq<Answers>, id: Id)
    requires |actions| == |answers| && AllReady(w, actions)
    requires forall a :: a in actions ==> a.id != id
    ensures AgreeAt(w, Passed(w, actions, answers), id)
    decreases |actions|
  {
    if actions != [] {
      PassLeaves(Attempted(w, actions[0], answers[0]), actions[1..], answers[1..], id);
    }
  }

  /** Where two worlds agree on an action, restoring it does the same in both; elsewhere it does nothing. */
  lemma AttemptAgrees(w: World, v: World, a: Found, o: Answers)
    requires Ready(w, a) && Ready(v, a)
    ensures AgreeAt(w, v, a.id) ==>
              AgreeAt(Attempted(w, a, o), Attempted(v, a, o), a.id) && Reported(w, a, o) == Reported(v, a, o)
    ensures forall id :: id != a.id && AgreeAt(w, v, id) ==> AgreeAt(w, Attempted(v, a, o), id)
  {
  }

  /**
   * One failure never stops the others: each action of a pass ends exactly as if it alone had
   * been restored in the world the pass began in, and is reported exactly as then.
   */
  lemma {:induction false} PassIsolates(
      w: World, v: World, actions: seq<Found>, answers: seq<Answers>)
    requires |actions| == |answers| && AllReady(w, actions) && AllReady(v, actions) && DistinctIds(actions)
    requires forall a :: a in actions ==> AgreeAt(w, v, a.id)
    ensures forall i :: 0 <= i < |actions| ==>
              AgreeAt(Attempted(w, actions[i], answers[i]), Passed(v, actions, answers), actions[i].id)
    ensures AllReported(v, actions, answers) == EachReported(w, actions, answers)
    decreases |actions|
  {
    if actions != [] {
      var u := Attempted(v, actions[0], answers[0]);
      AttemptAgrees(w, v, actions[0], answers[0]);
      hide Attempted, Reported;
      forall a | a in actions[1..] ensures AgreeAt(w, u, a.id) {
        assert a in actions && a.id != actions[0].id;
      }
      hide AgreeAt;
      PassIsolates(w, u, actions[1..], answers[1..]);
      PassLeaves(u, actions[1..], answers[1..], actions[0].id);
      assert AgreeAt(Attempted(w, actions[0], answers[0]), u, actions[0].id);
      forall i | 0 < i < |actions|
        ensures AgreeAt(Attempted(w, actions[i], answers[i]), Passed(v, actions, answers), actions[i].id)
      {
        assert actions[i] == actions[1..][i - 1] && answers[i] == answers[1..][i - 1];
      }
    }
  }

  /** A journalled action whose claim was current and that is not reported is restored and gone. */
  lemma SilenceIsSuccess(w: World, a: Found, o: Answers)
    requires Ready(w, a) && a.snapshot != Restored && w.rows[a.id] == a.snapshot
    ensures var v := Attempted(w, a, o);
            && (Reported(w, a, o) == [] ==> v.rows[a.id] == Restored && a.id !in v.effects)
            && (v.rows[a.id] == Restored ==> a.id !in v.effects && o.preflight && Gone(a, o))
  {
  }

  /** If an action is reported when it is restored alone, the reports of the pass name it. */
  lemma {:induction false} EachReportedHas(w: World, actions: seq<Found>, answers: seq<Answers>, i: nat)
    requires |actions| == |answers| && AllReady(w, actions) && i < |actions|
    ensures Reported(w, actions[i], answers[i]) != [] ==>
              exists f :: f in EachReported(w, actions, answers) && f.id == actions[i].id
    decreases |actions|
  {
    if i > 0 {
      EachReportedHas(w, actions[1..], answers[1..], i - 1);
    } else if Reported(w, actions[0], answers[0]) != [] {
      var f := Reported(w, actions[0], answers[0])[0];
      assert f in EachReported(w, actions, answers) && f.id == actions[0].id;
    }
  }

  /** What a whole pass says nothing about is restored: its row says so and its mutation is gone. */
  lemma SilentPass(w: World, actions: seq<Found>, answers: seq<Answers>, i: nat)
    requires |actions| == |answers| && AllReady(w, actions) && DistinctIds(actions) && i < |actions|
    requires actions[i].snapshot != Restored && w.rows[actions[i].id] == actions[i].snapshot
    requires forall f :: f in AllReported(w, actions, answers) ==> f.id != actions[i].id
    ensures var v := Passed(w, actions, answers);
            actions[i].id in v.rows && v.rows[actions[i].id] == Restored && actions[i].id !in v.effects
  {
    hide Passed, AllReported, EachReported, Attempted;
    PassIsolates(w, w, actions, answers);
    EachReportedHas(w, actions, answers, i);
    SilenceIsSuccess(w, actions[i], answers[i]);
    hide Reported;
  }

  // ---- the journal ----

  /** The actions taken up in `es`, in order. */
  function Tried(es: seq<Event>): seq<Found> {
    if es == [] then [] else (if es[0].Begin? then [es[0].a] else []) + Tried(es[1..])
  }

  lemma {:induction false} TriedJoin(es: seq<Event>, e: Event)
    ensures Tried(es + [e]) == Tried(es) + (if e.Begin? then [e.a] else [])
  {
    if es == [] {
      assert es + [e] == [e];
    } else {
      TriedJoin(es[1..], e);
      assert (es + [e])[1..] == es[1..] + [e];
    }
  }

  function Unrestored(actions: seq<Found>): seq<Found> {
    if actions == [] then []
    else (if actions[0].snapshot == Restored then [] else [actions[0]]) + Unrestored(actions[1..])
  }

  lemma {:induction false} UnrestoredJoin(actions: seq<Found>, a: Found)
    ensures Unrestored(actions + [a]) == Unrestored(actions) + (if a.snapshot == Restored then [] else [a])
  {
    if actions == [] {
      assert actions + [a] == [a];
    } else {
      UnrestoredJoin(actions[1..], a);
      assert (actions + [a])[1..] == actions[1..] + [a];
    }
  }

  /** `trace` remembers what was done since `start`; `Valid` says that it is a run. */
  class Journal {
    var world: World
    ghost var start: World
    ghost var trace: seq<Event>

    ghost predicate Valid()
      reads this
    {
      Path(start, trace, true) && After(start, trace, true) == world
    }

    constructor (w: World)
      ensures Valid() && world == w && start == w && trace == []
    {
      world, start, trace := w, w, [];
    }

    /** One call to the store or the executor. */
    method Do(e: Event)
      requires Valid() && Enabled(world, e, true)
      modifies this
      ensures Valid() && start == old(start) && trace == old(trace) + [e]
      ensures world == Next(old(world), e, true)
      ensures Tried(trace) == Tried(old(trace)) + (if e.Begin? then [e.a] else [])
    {
      hide Enabled, Next, Path, After, Tried;
      PathJoin(start, trace, e, true);
      TriedJoin(trace, e);
      world, trace := Next(world, e, true), trace + [e];
    }

    /** One turn of the restore loop. */
    method RestoreAction(a: Found, o: Answers) returns (errs: seq<Failure>)
      requires Valid() && world.restorer.Idle? && Ready(world, a)
      modifies this
      ensures Valid() && start == old(start)
      ensures world == Attempted(old(world), a, o)
      ensures errs == Reported(old(world), a, o)
      ensures Tried(trace) == Tried(old(trace)) + (if a.snapshot == Restored then [] else [a])
    {
      hide Path, After, Tried, Gone;
      errs := [];
      if a.snapshot == Restored { return; }
      Do(Begin(a));
      Do(Preflight(o.preflight));
      if !o.preflight {
        errs := MarkRestoreFailed(a, o.write);
        return;
      }
      Do(Claim(o.claim));
      if o.claim != Done { return [Failure(a.id, true)]; }
      if world.restorer.Idle? { return; }
      errs := RestoreClaimed(a, o);
    }

    method RestoreClaimed(a: Found, o: Answers) returns (errs: seq<Failure>)
      requires Valid() && world.restorer == if a.skip then Checking(a) else Inverting(a)
      modifies this
      ensures Valid() && start == old(start) && Tried(trace) == Tried(old(trace))
      ensures world.applying == old(world).applying && world.restorer.Idle?
      ensures world.rows == Wrote(old(world).rows, a.id, if Gone(a, o) then Restored else RestoreFailed, o.write)
      ensures world.effects == if Gone(a, o) then old(world).effects - {a.id}
                               else if o.touched then old(world).effects + {a.id} else old(world).effects
      ensures errs == if Gone(a, o) && o.write == Done then [] else [Failure(a.id, o.write != Done)]
    {
      hide Path, After, Tried, Wrote;
      if a.skip {
        Do(Verify(o.check));
        if o.check {
          errs := MarkRestored(a, o.write);
          return;
        }
      }
      Do(Inverse(o.inverse, o.touched));
      if !o.inverse {
        errs := MarkRestoreFailed(a, o.write);
        return;
      }
      Do(Verify(o.confirm));
      if !o.confirm {
        errs := MarkRestoreFailed(a, o.write);
        return;
      }
      errs := MarkRestored(a, o.write);
    }

    method MarkRestoreFailed(a: Found, reply: Reply) returns (errs: seq<Failure>)
      requires Valid() && world.restorer == Failing(a)
      modifies this
      ensures Valid() && start == old(start) && Tried(trace) == Tried(old(trace))
      ensures world == old(world).(rows := Wrote(old(world).rows, a.id, RestoreFailed, reply), restorer := Idle)
      ensures errs == [Failure(a.id, reply != Done)]
    {
      hide Path, After, Tried;
      Do(WriteFailed(reply));
      errs := [Failure(a.id, reply != Done)];
    }

    method MarkRestored(a: Found, reply: Reply) returns (errs: seq<Failure>)
      requires Valid() && world.restorer == Verified(a)
      modifies this
      ensures Valid() && start == old(start) && Tried(trace) == Tried(old(trace))
      ensures world == old(world).(rows := Wrote(old(world).rows, a.id, Restored, reply), restorer := Idle)
      ensures errs == if reply == Done then [] else [Failure(a.id, true)]
    {
      hide Path, After, Tried;
      Do(WriteRestored(reply));
      errs := if reply == Done then [] else [Failure(a.id, true)];
    }

    /** The restore loop: every unrestored action is taken up once, in order, whatever fails. */
    method RestoreActions(actions: seq<Found>, answers: seq<Answers>) returns (errs: seq<Failure>)
      requires Valid() && world.restorer.Idle? && |actions| == |answers| && AllReady(world, actions)
      modifies this
      ensures Valid() && start == old(start)
      ensures world == Passed(old(world), actions, answers)
      ensures errs == AllReported(old(world), actions, answers)
      ensures Tried(trace) == Tried(old(trace)) + Unrestored(actions)
    {
      hide Path, After, Tried, Attempted, Reported, Passed, AllReported, Ready;
      errs := [];
      var i := 0;
      assert actions[0..] == actions && answers[0..] == answers;
      assert Unrestored(actions[..0]) == [] && Tried(trace) + [] == Tried(trace);
      hide Unrestored;
      while i < |actions|
        invariant 0 <= i <= |actions|
        invariant Valid() && start == old(start) && world.restorer.Idle? && AllReady(world, actions)
        invariant Passed(world, actions[i..], answers[i..]) == Passed(old(world), actions, answers)
        invariant errs + AllReported(world, actions[i..], answers[i..]) == AllReported(old(world), actions, answers)
        invariant Tried(trace) == Tried(old(trace)) + Unrestored(actions[..i])
      {
        PassStep(world, actions, answers, i);
        UnrestoredJoin(actions[..i], actions[i]);
        assert actions[..i + 1] == actions[..i] + [actions[i]];
        hide AllReady;
        var found := RestoreAction(actions[i], answers[i]);
        errs := errs + found;
        i := i + 1;
      }
      PassEnds(world, actions, answers);
      assert actions[..i] == actions;
    }

    /** A forward action: its row is there before it runs, and is `applied` only after it ran. */
    method ApplyAction(id: Id, preflight: bool, insert: Reply, ok: bool, touched: bool, write: Reply)
      returns (done: bool)
      requires Valid() && id !in world.rows && id !in world.applying && id !in world.effects
      modifies this
      ensures Valid() && start == old(start)
      ensures world.restorer == old(world).restorer
      ensures done <==> preflight && insert == Done && ok && write == Done
      ensures world.effects == if preflight && insert == Done && (ok || touched) then old(world).effects + {id}
                               else old(world).effects
      ensures world.rows == if !preflight then old(world).rows
                            else if insert != Done then Wrote(old(world).rows, id, Planned, insert)
                            else Wrote(old(world).rows[id := Planned], id, if ok then Applied else Planned, write)
    {
      hide Path, After, Tried;
      if !preflight { return false; }
      Do(Insert(id, insert));
      if insert != Done { return false; }
      Do(Forward(id, ok, touched));
      if !ok {
        Do(ApplierWrites(id, write));
        return false;
      }
      Do(ApplierWrites(id, write));
      done := write == Done;
    }
  }
}
