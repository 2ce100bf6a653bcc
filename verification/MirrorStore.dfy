/** The store that keeps the database and the local mirror of an action in step (internal/gsbench/restore.go:635-930). */
module MirrorStore {
  import opened Actions
  import opened Common
  import opened RestorePlan
  import opened Sorting
  import Ledger = RecoveryLedger

  type Rows = map<(string, int), MutationState>

  /** The rows after an UPDATE of one row, unless it is missing or the call never arrived. */
  function RowsSet(rows: Rows, runID: string, sequence: int, state: MutationState, reply: Reply): Rows {
    if reply == Lost || (runID, sequence) !in rows then rows else rows[(runID, sequence) := state]
  }

  /** Whether a claim would find the row in the state the caller saw. */
  predicate Claimable(rows: Rows, action: Action) {
    (action.runID, action.sequence) in rows && rows[(action.runID, action.sequence)] == action.state
  }

  /** The rows after a claim: by compare-and-swap where the store offers it, else by a plain write. */
  function RowsClaimed(rows: Rows, claims: bool, action: Action, reply: Reply): Rows {
    if claims && !Claimable(rows, action) then rows else RowsSet(rows, action.runID, action.sequence, Restoring, reply)
  }

  function DatabaseClaimed(rows: Rows, db: bool, claims: bool, action: Action, reply: Reply): Rows {
    if db then RowsClaimed(rows, claims, action, reply) else rows
  }

  /** The journal table, as far as a restore writes it. */
  class JournalTable {
    var rows: Rows
    /** Whether the store offers the compare-and-swap claim. */
    const claims: bool

    constructor (rows: Rows, claims: bool)
      ensures this.rows == rows && this.claims == claims
    {
      this.rows, this.claims := rows, claims;
    }

    /** UPDATE ... WHERE the row is there. */
    method SetState(runID: string, sequence: int, state: MutationState, reply: Reply) returns (ok: bool)
      modifies this
      ensures ok <==> reply == Done
      ensures rows == RowsSet(old(rows), runID, sequence, state, reply)
    {
      if reply != Lost && (runID, sequence) in rows { rows := rows[(runID, sequence) := state]; }
      ok := reply == Done;
    }

    /** UPDATE ... WHERE the row is in the state the caller saw; says whether it was. */
    method ClaimAction(action: Action, reply: Reply) returns (claimed: bool, ok: bool)
      modifies this
      ensures ok <==> reply == Done
      ensures claimed <==> ok && Claimable(old(rows), action)
      ensures rows == RowsClaimed(old(rows), true, action, reply)
    {
      var key := (action.runID, action.sequence);
      var affected := key in rows && rows[key] == action.state;
      if reply != Lost && affected { rows := rows[key := Restoring]; }
      ok := reply == Done;
      claimed := ok && affected;
    }
  }

  /** Errors; those of the two mirrors carry the number of the call that failed. */
  datatype Fault = Database(call: nat) | Local(call: nat) | Unregistered | Ambiguous

  function DatabaseFaults(errs: seq<Fault>): multiset<Fault> {
    if errs == [] then multiset{}
    else (if errs[0].Database? then multiset{errs[0]} else multiset{}) + DatabaseFaults(errs[1..])
  }

  lemma {:induction false} DatabaseFaultsJoin(a: seq<Fault>, b: seq<Fault>)
    ensures DatabaseFaults(a + b) == DatabaseFaults(a) + DatabaseFaults(b)
  {
    if a == [] {
      assert a + b == b;
    } else {
      assert (a + b)[1..] == a[1..] + b;
      DatabaseFaultsJoin(a[1..], b);
    }
  }

  lemma {:induction false} AllDatabase(errs: seq<Fault>)
    requires forall e :: e in errs ==> e.Database?
    ensures DatabaseFaults(errs) == multiset(errs)
  {
    if errs != [] {
      assert errs == [errs[0]] + errs[1..];
      AllDatabase(errs[1..]);
    }
  }

  datatype Source = Source(action: Action, db: bool, local: bool)

  /** The sources after one more action was registered; the local copy of an action wins. */
  function Registered(sources: map<Identity, Source>, action: Action, db: bool, local: bool): map<Identity, Source> {
    var id := IdentityOf(action);
    var was := if id in sources then sources[id] else Source(action, false, false);
    sources[id := Source(if local then action else was.action, was.db || db, was.local || local)]
  }

  ghost predicate Names(actions: seq<Action>, id: Identity) { exists a :: a in actions && IdentityOf(a) == id }

  /** Exactly the given actions are registered, each with the mirrors that hold it. */
  ghost predicate Registers(sources: map<Identity, Source>, database: seq<Action>, local: seq<Action>) {
    && (forall id :: id in sources <==> Names(database, id) || Names(local, id))
    && (forall id :: id in sources ==> (
          var s := sources[id];
          && IdentityOf(s.action) == id && (s.db <==> Names(database, id)) && (s.local <==> Names(local, id))
          && (s.local ==> s.action in local)))
  }

  lemma RegistersNothing()
    ensures Registers(map[], [], [])
  {
  }

  lemma RegistersNamed(sources: map<Identity, Source>, database: seq<Action>, local: seq<Action>)
    requires Registers(sources, database, local)
    ensures Named(sources)
  {
    hide Names;
  }

  lemma RegistersNext(sources: map<Identity, Source>, database: seq<Action>, local: seq<Action>, a: Action)
    requires Registers(sources, database, local)
    ensures local == [] ==> Registers(Registered(sources, a, true, false), database + [a], local)
    ensures Registers(Registered(sources, a, false, true), database, local + [a])
  {
    NamesSnoc(database, a);
    NamesSnoc(local, a);
    hide Names;
  }

  lemma NamesSnoc(xs: seq<Action>, a: Action)
    ensures forall id :: Names(xs + [a], id) <==> Names(xs, id) || id == IdentityOf(a)
  {
    forall id ensures Names(xs + [a], id) <==> Names(xs, id) || id == IdentityOf(a) {
      if Names(xs, id) {
        var b :| b in xs && IdentityOf(b) == id;
        assert b in xs + [a];
      }
      assert a in xs + [a];
    }
  }

  function DatabaseSet(rows: Rows, db: bool, id: Identity, state: MutationState, reply: Reply): Rows {
    if db then RowsSet(rows, id.runID, id.sequence, state, reply) else rows
  }

  /** Every database failure is waiting or was told, and none twice. */
  ghost predicate Conserved(failed: multiset<Fault>, told: multiset<Fault>, deferred: seq<Fault>, calls: nat) {
    && failed == told + multiset(deferred)
    && forall e :: e in failed ==> e.Database? && e.call < calls && failed[e] == 1
  }

  lemma ConservedNext(failed: multiset<Fault>, told: multiset<Fault>, deferred: seq<Fault>, calls: nat)
    requires Conserved(failed, told, deferred, calls)
    ensures Conserved(failed, told, deferred, calls + 1)
    ensures Conserved(failed + multiset{Database(calls)}, told, deferred + [Database(calls)], calls + 1)
    ensures Conserved(failed + multiset{Database(calls)}, told + multiset{Database(calls)}, deferred, calls + 1)
  {
    assert Database(calls) !in failed;
  }

  /** What call number `n` returns: every failure but a database one that the local mirror made up for. */
  function Errors(n: nat, databaseFailed: bool, local: bool, localFailed: bool): seq<Fault> {
    (if databaseFailed && (!local || localFailed) then [Database(n)] else []) + (if localFailed then [Local(n)] else [])
  }

  /** What waits to be drained after it: a database failure is kept only if the local mirror was written. */
  function DeferredAfter(deferred: seq<Fault>, n: nat, databaseFailed: bool, local: bool, localFailed: bool): seq<Fault> {
    if databaseFailed && local && !localFailed then deferred + [Database(n)] else deferred
  }

  ghost function FailedAfter(failed: multiset<Fault>, n: nat, databaseFailed: bool): multiset<Fault> {
    if databaseFailed then failed + multiset{Database(n)} else failed
  }

  /** How one call changes the account, and what it returns. */
  ghost predicate Settled(
      wereFailed: multiset<Fault>, wereDeferred: seq<Fault>, n: nat, failed: multiset<Fault>, deferred: seq<Fault>,
      databaseFailed: bool, local: bool, localFailed: bool, errs: seq<Fault>)
  {
    && failed == FailedAfter(wereFailed, n, databaseFailed)
    && deferred == DeferredAfter(wereDeferred, n, databaseFailed, local, localFailed)
    && errs == Errors(n, databaseFailed, local, localFailed)
  }

  lemma SettlingConserves(
      failed: multiset<Fault>, told: multiset<Fault>, deferred: seq<Fault>, n: nat,
      databaseFailed: bool, local: bool, localFailed: bool)
    requires Conserved(failed, told, deferred, n)
    ensures Conserved(FailedAfter(failed, n, databaseFailed),
                      told + DatabaseFaults(Errors(n, databaseFailed, local, localFailed)),
                      DeferredAfter(deferred, n, databaseFailed, local, localFailed), n + 1)
  {
    var first := if databaseFailed && (!local || localFailed) then [Database(n)] else [];
    var second := if localFailed then [Local(n)] else [];
    DatabaseFaultsJoin(first, second);
    FaultsOf(n);
    ConservedNext(failed, told, deferred, n);
    hide DatabaseFaults, Conserved;
    assert DatabaseFaults(second) == multiset{};
    assert DatabaseFaults(first + second) == if first == [] then multiset{} else multiset{Database(n)};
    assert told + multiset{} == told;
  }

  lemma FaultsOf(n: nat)
    ensures DatabaseFaults([]) == DatabaseFaults([Local(n)]) == multiset{}
    ensures DatabaseFaults([Database(n)]) == multiset{Database(n)}
    ensures DatabaseFaults([Unregistered]) == DatabaseFaults([Ambiguous]) == multiset{}
  {
  }

  /** The ledger's disk after the local half of a claim. */
  ghost function DiskAfter(disk: Ledger.Disk, local: bool, next: Action, io: Ledger.Io): Ledger.Disk {
    if local then Ledger.Put(disk, next, io).0 else disk
  }

  /** The ledger's disk after the local half of a state change. */
  ghost function DiskSet(
      disk: Ledger.Disk, local: bool, a: Action, state: MutationState, detail: string, io: Ledger.Io): Ledger.Disk {
    if !local then disk
    else if state == Restored then Ledger.MarkRestored(disk, a.runID, a.target, io).0
    else DiskAfter(disk, true, Rewritten(a, state, detail), io)
  }

  /** The action as its mirrors will have it. */
  function Rewritten(a: Action, state: MutationState, detail: string): Action { a.(state := state, lastError := detail) }

  function WithAction(sources: map<Identity, Source>, id: Identity, a: Action): map<Identity, Source>
    requires id in sources
  {
    sources[id := sources[id].(action := a)]
  }

  /** The sources after the local mirror of one was written, or not; of `restored` its source learns nothing. */
  function SourcesSet(
      sources: map<Identity, Source>, id: Identity, written: bool, state: MutationState, detail: string)
    : map<Identity, Source>
    requires id in sources
  {
    if written && state != Restored then WithAction(sources, id, Rewritten(sources[id].action, state, detail))
    else sources
  }

  lemma RewrittenKeeps(sources: map<Identity, Source>, id: Identity, state: MutationState, detail: string)
    requires Named(sources) && id in sources
    ensures IdentityOf(Rewritten(sources[id].action, state, detail)) == id
  {
  }

  lemma NamedKeeps(sources: map<Identity, Source>, id: Identity, a: Action)
    requires Named(sources) && id in sources && IdentityOf(a) == id
    ensures Named(WithAction(sources, id, a)) && WithAction(sources, id, a).Keys == sources.Keys
  {
  }

  ghost predicate Matches(sources: map<Identity, Source>, id: Identity, runID: string, sequence: int) {
    id in sources && id.runID == runID && id.sequence == sequence
  }

  ghost predicate Unmatched(sources: map<Identity, Source>, runID: string, sequence: int) {
    forall id :: !Matches(sources, id, runID, sequence)
  }

  /** Two different sources share the run and the number. */
  ghost predicate Twofold(sources: map<Identity, Source>, runID: string, sequence: int) {
    exists a, b :: a != b && Matches(sources, a, runID, sequence) && Matches(sources, b, runID, sequence)
  }

  /** Every source is filed under the identity of its action. */
  ghost predicate Named(sources: map<Identity, Source>) {
    forall id :: id in sources ==> IdentityOf(sources[id].action) == id
  }

  class CoordinatorActionStore {
    const database: JournalTable?
    const ledger: Ledger.FileRecoveryLedger?
    var sources: map<Identity, Source>
    var deferred: seq<Fault>
    /** The calls made so far; their numbers tell errors apart. */
    var calls: nat
    /** The database failures that happened, and those that were returned or drained. */
    ghost var failed: multiset<Fault>
    ghost var told: multiset<Fault>

    ghost predicate Valid()
      reads this, ledger
    {
      && (ledger != null ==> Ledger.Durable(ledger.disk, []))
      && Named(sources)
      && Conserved(failed, told, deferred, calls)
    }

    constructor (database: JournalTable?, ledger: Ledger.FileRecoveryLedger?,
                 databaseActions: seq<Action>, localActions: seq<Action>)
      requires ledger != null ==> Ledger.Durable(ledger.disk, [])
      ensures Valid() && this.database == database && this.ledger == ledger
      ensures deferred == [] && failed == multiset{}
      ensures Registers(sources, databaseActions, localActions)
    {
      RegistersNothing();
      hide Registers, Registered, Ledger.Durable, Named;
      this.database, this.ledger := database, ledger;
      sources, deferred, calls, failed, told := map[], [], 0, multiset{}, multiset{};
      new;
      for i := 0 to |databaseActions|
        invariant fresh(this) && deferred == [] && failed == told == multiset{}
        invariant Registers(sources, databaseActions[..i], [])
      {
        RegistersNext(sources, databaseActions[..i], [], databaseActions[i]);
        assert databaseActions[..i + 1] == databaseActions[..i] + [databaseActions[i]];
        Register(databaseActions[i], true, false);
      }
      assert databaseActions[..|databaseActions|] == databaseActions;
      for i := 0 to |localActions|
        invariant fresh(this) && deferred == [] && failed == told == multiset{}
        invariant Registers(sources, databaseActions, localActions[..i])
      {
        RegistersNext(sources, databaseActions, localActions[..i], localActions[i]);
        assert localActions[..i + 1] == localActions[..i] + [localActions[i]];
        Register(localActions[i], false, true);
      }
      assert localActions[..|localActions|] == localActions;
      RegistersNamed(sources, databaseActions, localActions);
    }

    method Register(action: Action, db: bool, local: bool)
      modifies this`sources
      ensures sources == Registered(old(sources), action, db, local)
    {
      var identity := IdentityOf(action);
      if identity !in sources { sources := sources[identity := Source(action, false, false)]; }
      var source := sources[identity];
      source := source.(db := source.db || db, local := source.local || local);
      if local { source := source.(action := action); }
      sources := sources[identity := source];
    }

    /**
     * A database failure is returned, or kept for later when the local mirror was written;
     * a local failure is always returned.
     */
    method Settle(databaseFailed: bool, local: bool, localFailed: bool) returns (errs: seq<Fault>)
      requires Valid()
      modifies this`deferred, this`calls, this`failed, this`told
      ensures Valid() && calls == old(calls) + 1 && told == old(told) + DatabaseFaults(errs)
      ensures Settled(old(failed), old(deferred), old(calls), failed, deferred,
                      databaseFailed, local, localFailed, errs)
      ensures Unregistered !in errs && Ambiguous !in errs
    {
      hide Named, Conserved, DatabaseFaults, Ledger.Durable, FailedAfter;
      SettlingConserves(failed, told, deferred, calls, databaseFailed, local, localFailed);
      failed := FailedAfter(failed, calls, databaseFailed);
      errs := [];
      var left := databaseFailed;
      if databaseFailed && local && !localFailed {
        deferred := deferred + [Database(calls)];
        left := false;
      }
      if left { errs := errs + [Database(calls)]; }
      if localFailed { errs := errs + [Local(calls)]; }
      assert errs == Errors(calls, databaseFailed, local, localFailed);
      hide Errors, DeferredAfter;
      told := told + DatabaseFaults(errs);
      calls := calls + 1;
    }

    ghost predicate DatabaseFails(reply: Reply) { database == null || reply != Done }

    /** A claim is refused when the row is no longer as the action was discovered. */
    ghost predicate Refused(action: Action)
      reads database
    {
      database != null && database.claims && !Claimable(database.rows, action)
    }

    /** The local ledger stores `next` durably. */
    ghost predicate LocalAccepts(next: Action, io: Ledger.Io)
      reads ledger
    {
      ledger != null && Ledger.Put(ledger.disk, next, io).1 == None
    }

    /** The database half of a claim; a failure leaves the question open, a refusal settles it. */
    method ClaimDatabase(action: Action, reply: Reply) returns (claimed: bool, fails: bool)
      modifies database
      ensures fails <==> DatabaseFails(reply)
      ensures claimed <==> !fails && !old(Refused(action))
      ensures database != null ==> database.rows == RowsClaimed(old(database.rows), database.claims, action, reply)
    {
      if database == null { return false, true; }
      var ok: bool;
      if database.claims {
        claimed, ok := database.ClaimAction(action, reply);
      } else {
        ok := database.SetState(action.runID, action.sequence, Restoring, reply);
        claimed := ok;
      }
      fails := !ok;
    }

    /** The local half of a claim or a state change. */
    method WriteLocal(local: bool, identity: Identity, next: Action, io: Ledger.Io) returns (fails: bool)
      requires Valid() && identity in sources && IdentityOf(next) == identity
      modifies this`sources, ledger
      ensures Valid()
      ensures fails <==> local && !old(LocalAccepts(next, io))
      ensures ledger != null ==> ledger.disk == DiskAfter(old(ledger.disk), local, next, io)
      ensures sources == if local && !fails then WithAction(old(sources), identity, next) else old(sources)
    {
      hide Named, Ledger.Durable, Ledger.Put, Conserved, WithAction;
      if !local { return false; }
      if ledger == null { return true; }
      var error := ledger.PutAction(next, io);
      fails := error.Some?;
      if !fails {
        NamedKeeps(sources, identity, next);
        sources := WithAction(sources, identity, next);
      }
    }

    twostate predicate LedgerUnchanged()
      reads ledger
    {
      ledger != null ==> ledger.disk == old(ledger.disk)
    }

    twostate predicate DatabaseUnchanged()
      reads database
    {
      database != null ==> database.rows == old(database.rows)
    }

    /** A call that changed neither mirror nor source. */
    twostate predicate Nowhere()
      reads this, database, ledger
    {
      unchanged(`sources, `deferred, `failed) && DatabaseUnchanged() && LedgerUnchanged()
    }

    /** Claims an action in the mirrors that hold it; a refused database claim touches nothing else. */
    method ClaimAction(action: Action, reply: Reply, io: Ledger.Io) returns (claimed: bool, errs: seq<Fault>)
      requires Valid()
      modifies this`sources, this`deferred, this`calls, this`failed, this`told, database, ledger
      ensures Valid() && calls == old(calls) + 1 && told == old(told) + DatabaseFaults(errs)
      ensures var id := IdentityOf(action);
              if id !in old(sources) then
                !claimed && errs == [Unregistered] && Nowhere()
              else
                var was := old(sources[id]);
                var next := Rewritten(was.action, Restoring, "");
                if was.db && !DatabaseFails(reply) && old(Refused(action)) then
                  !claimed && errs == [] && Nowhere()
                else
                  var localFails := was.local && !old(LocalAccepts(next, io));
                  && (database != null ==>
                        database.rows == DatabaseClaimed(old(database.rows), was.db, database.claims, action, reply))
                  && (claimed <==> errs == [])
                  && Settled(old(failed), old(deferred), old(calls), failed, deferred,
                             was.db && DatabaseFails(reply), was.local, localFails, errs)
                  && (ledger != null ==> ledger.disk == DiskAfter(old(ledger.disk), was.local, next, io))
                  && sources == if was.local && !localFails then WithAction(old(sources), id, next) else old(sources)
    {
      hide Named, Conserved, DatabaseFaults, Settled, Ledger.Durable, Ledger.Put;
      var identity := IdentityOf(action);
      if identity !in sources {
        errs := Nothing([Unregistered]);
        return false, errs;
      }
      var source := sources[identity];
      var databaseFailed, databaseClaimed := false, true;
      if source.db {
        databaseClaimed, databaseFailed := ClaimDatabase(action, reply);
        if !databaseFailed && !databaseClaimed {
          errs := Nothing([]);
          return false, errs;
        }
      }
      var localFailed: bool;
      claimed, errs, localFailed := ClaimLocal(identity, source, databaseFailed, io);
    }

    /** The local half of a claim whose database half was granted or failed. */
    method ClaimLocal(identity: Identity, source: Source, databaseFailed: bool, io: Ledger.Io)
      returns (claimed: bool, errs: seq<Fault>, localFailed: bool)
      requires Valid() && identity in sources && sources[identity] == source
      modifies this`sources, this`deferred, this`calls, this`failed, this`told, ledger
      ensures Valid() && calls == old(calls) + 1 && told == old(told) + DatabaseFaults(errs)
      ensures localFailed <==> source.local && !old(LocalAccepts(Rewritten(source.action, Restoring, ""), io))
      ensures claimed <==> errs == []
      ensures Settled(old(failed), old(deferred), old(calls), failed, deferred,
                      databaseFailed, source.local, localFailed, errs)
      ensures ledger != null ==>
                ledger.disk == DiskAfter(old(ledger.disk), source.local, Rewritten(source.action, Restoring, ""), io)
      ensures sources == if source.local && !localFailed
                         then WithAction(old(sources), identity, Rewritten(source.action, Restoring, ""))
                         else old(sources)
    {
      RewrittenKeeps(sources, identity, Restoring, "");
      hide WithAction, Rewritten, Named, Conserved, DatabaseFaults, Settled, Ledger.Durable, Ledger.Put, LocalAccepts;
      hide DiskAfter;
      localFailed := WriteLocal(source.local, identity, Rewritten(source.action, Restoring, ""), io);
      errs := Settle(databaseFailed, source.local, localFailed);
      claimed := errs == [];
    }

    /** A call that settles nothing. */
    method Nothing(errs: seq<Fault>) returns (r: seq<Fault>)
      requires Valid() && (errs == [] || errs == [Unregistered] || errs == [Ambiguous])
      modifies this`calls
      ensures Valid() && calls == old(calls) + 1 && r == errs && DatabaseFaults(errs) == multiset{}
    {
      ConservedNext(failed, told, deferred, calls);
      FaultsOf(0);
      hide Named, Conserved, DatabaseFaults, Ledger.Durable;
      calls := calls + 1;
      r := errs;
    }

    /** The local half of a state change: `restored` has its own ledger call and leaves the source as it was. */
    method SetLocal(local: bool, identity: Identity, state: MutationState, detail: string, io: Ledger.Io)
      returns (fails: bool)
      requires Valid() && identity in sources
      modifies this`sources, ledger
      ensures Valid()
      ensures fails <==> local && !old(LocalSets(sources[identity].action, state, detail, io))
      ensures ledger != null ==>
                ledger.disk == DiskSet(old(ledger.disk), local, old(sources)[identity].action, state, detail, io)
      ensures sources == SourcesSet(old(sources), identity, local && !fails, state, detail)
    {
      if !local { return false; }
      RewrittenKeeps(sources, identity, state, detail);
      hide Ledger.Durable, Ledger.Put, Ledger.MarkRestored, Conserved, Rewritten, WithAction;
      var action := sources[identity].action;
      if ledger == null { return true; }
      if state == Restored {
        var error := ledger.MarkActionRestored(action.runID, action.target, io);
        fails := error.Some?;
      } else {
        fails := WriteLocal(true, identity, Rewritten(action, state, detail), io);
      }
    }

    /** The database half of a state change, for an action the database holds. */
    method SetDatabase(db: bool, identity: Identity, state: MutationState, reply: Reply) returns (fails: bool)
      modifies database
      ensures fails <==> db && DatabaseFails(reply)
      ensures database != null ==> database.rows == DatabaseSet(old(database.rows), db, identity, state, reply)
    {
      fails := false;
      if db {
        if database == null { return true; }
        var ok := database.SetState(identity.runID, identity.sequence, state, reply);
        fails := !ok;
      }
    }

    ghost predicate LocalSets(action: Action, state: MutationState, detail: string, io: Ledger.Io)
      reads ledger
    {
      if state == Restored then
        ledger != null && Ledger.MarkRestored(ledger.disk, action.runID, action.target, io).1 == None
      else LocalAccepts(Rewritten(action, state, detail), io)
    }

    /**
     * Every mirror that holds the action was asked to take the new state; a failure of the database is
     * deferred only if the local mirror took it.
     */
    twostate predicate StateWritten(
        identity: Identity, state: MutationState, detail: string, reply: Reply, io: Ledger.Io, errs: seq<Fault>)
      requires identity in old(sources)
      reads this, database, ledger
    {
      var was := old(sources)[identity];
      var localFails := was.local && !old(LocalSets(was.action, state, detail, io));
      && Settled(old(failed), old(deferred), old(calls), failed, deferred,
                 was.db && DatabaseFails(reply), was.local, localFails, errs)
      && sources == SourcesSet(old(sources), identity, was.local && !localFails, state, detail)
      && (database != null ==> database.rows == DatabaseSet(old(database.rows), was.db, identity, state, reply))
      && (ledger != null ==> ledger.disk == DiskSet(old(ledger.disk), was.local, was.action, state, detail, io))
    }

    /** Writes a state to every mirror that holds the action. */
    method SetSourceState(identity: Identity, state: MutationState, detail: string, reply: Reply, io: Ledger.Io)
      returns (errs: seq<Fault>)
      requires Valid() && identity in sources
      modifies this`sources, this`deferred, this`calls, this`failed, this`told, database, ledger
      ensures Valid() && calls == old(calls) + 1 && told == old(told) + DatabaseFaults(errs)
      ensures Unregistered !in errs && Ambiguous !in errs
      ensures StateWritten(identity, state, detail, reply, io, errs)
    {
      hide SourcesSet, DatabaseSet, DiskSet, DatabaseFails, Named, Conserved, DatabaseFaults;
      hide Ledger.Durable, Ledger.Put, Ledger.MarkRestored, LocalSets, Settled;
      var source := sources[identity];
      var databaseFailed := SetDatabase(source.db, identity, state, reply);
      var localFailed := SetLocal(source.local, identity, state, detail, io);
      errs := Settle(databaseFailed, source.local, localFailed);
    }

    method SetActionState(action: Action, state: MutationState, detail: string, reply: Reply, io: Ledger.Io)
      returns (errs: seq<Fault>)
      requires Valid()
      modifies this`sources, this`deferred, this`calls, this`failed, this`told, database, ledger
      ensures Valid() && calls == old(calls) + 1 && told == old(told) + DatabaseFaults(errs)
      ensures var id := IdentityOf(action);
              if id in old(sources) then StateWritten(id, state, detail, reply, io, errs)
              else errs == [Unregistered] && Nowhere()
    {
      hide Named, Conserved, DatabaseFaults, Ledger.Durable, LocalSets, Settled;
      var identity := IdentityOf(action);
      if identity !in sources {
        errs := Nothing([Unregistered]);
      } else {
        errs := SetSourceState(identity, state, detail, reply, io);
      }
    }

    /** Finds the one source of a run and sequence, in whatever order the map is walked. */
    method FindSource(runID: string, sequence: int) returns (matched: Option<Identity>, ambiguous: bool)
      ensures ambiguous <==> Twofold(sources, runID, sequence)
      ensures matched.None? <==> Unmatched(sources, runID, sequence)
      ensures matched.Some? ==> Matches(sources, matched.value, runID, sequence)
    {
      var rest := sources.Keys;
      matched, ambiguous := None, false;
      while rest != {}
        invariant rest <= sources.Keys
        invariant matched.Some? ==> Matches(sources, matched.value, runID, sequence) && matched.value !in rest
        invariant forall id :: Matches(sources, id, runID, sequence) && id !in rest ==> matched == Some(id)
        decreases |rest|
      {
        var id :| id in rest;
        rest := rest - {id};
        if id.runID != runID || id.sequence != sequence { continue; }
        assert Matches(sources, id, runID, sequence);
        if matched.Some? {
          ambiguous := true;
          return;
        }
        matched := Some(id);
      }
    }

    method SetState(runID: string, sequence: int, state: MutationState, detail: string, reply: Reply, io: Ledger.Io)
      returns (errs: seq<Fault>)
      requires Valid()
      modifies this`sources, this`deferred, this`calls, this`failed, this`told, database, ledger
      ensures Valid() && calls == old(calls) + 1 && told == old(told) + DatabaseFaults(errs)
      ensures if Unmatched(old(sources), runID, sequence) then errs == [Unregistered] && Nowhere()
              else if Twofold(old(sources), runID, sequence) then errs == [Ambiguous] && Nowhere()
              else exists id :: Matches(old(sources), id, runID, sequence) && StateWritten(id, state, detail, reply, io, errs)
    {
      hide Named, Conserved, DatabaseFaults, Ledger.Durable, LocalSets;
      hide SourcesSet, DatabaseSet, DiskSet, DatabaseFails, Settled;
      var matched, ambiguous := FindSource(runID, sequence);
      assert ambiguous ==> !Unmatched(sources, runID, sequence);
      assert matched.Some? ==> matched.value in sources;
      hide Matches, Unmatched, Twofold;
      if ambiguous {
        errs := Nothing([Ambiguous]);
      } else if matched.None? {
        errs := Nothing([Unregistered]);
      } else {
        assert Matches(sources, matched.value, runID, sequence);
        errs := SetSourceState(matched.value, state, detail, reply, io);
        assert StateWritten(matched.value, state, detail, reply, io, errs);
      }
    }

    method DrainErrors() returns (errs: seq<Fault>)
      requires Valid()
      modifies this`deferred, this`told
      ensures Valid() && deferred == [] && told == failed && errs == old(deferred)
      ensures told == old(told) + DatabaseFaults(errs)
    {
      hide Ledger.Durable, Named;
      errs := deferred;
      forall e | e in deferred ensures e.Database? {
        assert e in multiset(deferred) && e in failed;
      }
      AllDatabase(deferred);
      told := told + multiset(deferred);
      deferred := [];
    }

    /** The registered actions of a run that its source does not know to be restored, newest first. */
    method Pending(runID: string) returns (actions: seq<Action>)
      ensures forall a :: a in actions <==>
                a.runID == runID && a.state != Restored && exists id :: id in sources && sources[id].action == a
      ensures SortedBy((a: Action, b: Action) => a.sequence >= b.sequence, actions)
      ensures Named(sources) ==> Apart((a: Action, b: Action) => IdentityOf(a) == IdentityOf(b), actions)
    {
      actions := [];
      var rest := sources.Keys;
      while rest != {}
        invariant rest <= sources.Keys
        invariant forall a :: a in actions <==> (
                    a.runID == runID && a.state != Restored
                    && exists id :: id in sources && id !in rest && sources[id].action == a)
        invariant Named(sources) ==> forall i, j :: 0 <= i < j < |actions| ==> IdentityOf(actions[i]) != IdentityOf(actions[j])
        decreases |rest|
      {
        var id :| id in rest;
        rest := rest - {id};
        var action := sources[id].action;
        if action.runID == runID && action.state != Restored { actions := actions + [action]; }
      }
      var order := (a: Action, b: Action) => a.sequence >= b.sequence;
      SortCorrect(order, actions);
      if Named(sources) {
        ApartPermutes((a: Action, b: Action) => IdentityOf(a) == IdentityOf(b), actions, Sort(order, actions));
      }
      actions := Sort(order, actions);
    }
  }

  datatype Operation =
    | Claim(action: Action, reply: Reply, io: Ledger.Io)
    | Set(action: Action, state: MutationState, detail: string, reply: Reply, io: Ledger.Io)
    | SetByNumber(runID: string, sequence: int, state: MutationState, detail: string, reply: Reply, io: Ledger.Io)
    | Drain

  /** Neither claims nor state writes change which mirrors hold an action. */
  ghost predicate SameMirrors(was: map<Identity, Source>, now: map<Identity, Source>) {
    was.Keys == now.Keys && forall id :: id in was ==> was[id].db == now[id].db
  }

  /** The operation addresses one registered action that the database holds, and the database does not answer it. */
  ghost predicate DatabaseHalfFails(sources: map<Identity, Source>, absent: bool, operation: Operation) {
    match operation
    case Claim(action, reply, _) => HeldByDatabase(sources, IdentityOf(action)) && (absent || reply != Done)
    case Set(action, _, _, reply, _) => HeldByDatabase(sources, IdentityOf(action)) && (absent || reply != Done)
    case SetByNumber(runID, sequence, _, _, reply, _) =>
      && !Twofold(sources, runID, sequence) && (absent || reply != Done)
      && exists id :: Matches(sources, id, runID, sequence) && HeldByDatabase(sources, id)
    case Drain => false
  }

  ghost predicate HeldByDatabase(sources: map<Identity, Source>, id: Identity) { id in sources && sources[id].db }

  lemma FailsAlike(was: map<Identity, Source>, now: map<Identity, Source>, absent: bool, operation: Operation)
    requires SameMirrors(was, now)
    ensures DatabaseHalfFails(was, absent, operation) <==> DatabaseHalfFails(now, absent, operation)
  {
    assert forall id :: HeldByDatabase(was, id) <==> HeldByDatabase(now, id);
    if operation.SetByNumber? {
      assert forall id :: Matches(was, id, operation.runID, operation.sequence)
                          <==> Matches(now, id, operation.runID, operation.sequence);
    }
  }

  lemma NumberedFails(sources: map<Identity, Source>, absent: bool, operation: Operation)
    requires operation.SetByNumber?
    ensures Unmatched(sources, operation.runID, operation.sequence) || Twofold(sources, operation.runID, operation.sequence)
            ==> !DatabaseHalfFails(sources, absent, operation)
    ensures !Twofold(sources, operation.runID, operation.sequence) ==>
              forall id :: Matches(sources, id, operation.runID, operation.sequence) ==>
                id in sources
                && (DatabaseHalfFails(sources, absent, operation)
                    <==> sources[id].db && (absent || operation.reply != Done))
  {
  }

  /** Rewriting the action of a source leaves the mirrors as they are. */
  lemma MirrorsStay(sources: map<Identity, Source>, id: Identity, state: MutationState, detail: string)
    ensures SameMirrors(sources, sources)
    ensures id in sources ==>
              && SameMirrors(sources, WithAction(sources, id, Rewritten(sources[id].action, state, detail)))
              && forall written :: SameMirrors(sources, SourcesSet(sources, id, written, state, detail))
  {
  }

  lemma MirrorsJoin(a: map<Identity, Source>, b: map<Identity, Source>, c: map<Identity, Source>)
    ensures SameMirrors(a, a)
    ensures SameMirrors(a, b) && SameMirrors(b, c) ==> SameMirrors(a, c)
  {
  }

  /** The number of calls among the operations; a drain is none. */
  function Calls(operations: seq<Operation>): nat {
    if operations == [] then 0
    else Calls(operations[..|operations| - 1]) + (if operations[|operations| - 1].Drain? then 0 else 1)
  }

  /** The numbers of exactly those operations whose database half fails, the first call being number `n`. */
  ghost function FailedCalls(
      sources: map<Identity, Source>, absent: bool, operations: seq<Operation>, n: nat): multiset<Fault>
  {
    if operations == [] then multiset{} else
    var rest, last := operations[..|operations| - 1], operations[|operations| - 1];
    FailedAfter(FailedCalls(sources, absent, rest, n), n + Calls(rest), DatabaseHalfFails(sources, absent, last))
  }

  /** The account after some operations: the failures are those of the calls made, and all told ones were reported. */
  ghost predicate Account(
      sources: map<Identity, Source>, absent: bool, first: nat, done: seq<Operation>,
      now: map<Identity, Source>, calls: nat, failed: multiset<Fault>, told: multiset<Fault>, reported: seq<Fault>)
  {
    && SameMirrors(sources, now) && calls == first + Calls(done)
    && failed == FailedCalls(sources, absent, done, first) && told == DatabaseFaults(reported)
  }

  lemma AccountStarts(sources: map<Identity, Source>, absent: bool, first: nat)
    ensures Account(sources, absent, first, [], sources, first, multiset{}, multiset{}, [])
  {
    FaultsOf(0);
  }

  lemma AccountNext(
      sources: map<Identity, Source>, absent: bool, first: nat, done: seq<Operation>,
      now: map<Identity, Source>, calls: nat, failed: multiset<Fault>, told: multiset<Fault>, reported: seq<Fault>,
      operation: Operation, errs: seq<Fault>, after: map<Identity, Source>)
    requires Account(sources, absent, first, done, now, calls, failed, told, reported) && SameMirrors(now, after)
    ensures Account(sources, absent, first, done + [operation], after,
                    calls + (if operation.Drain? then 0 else 1),
                    FailedAfter(failed, calls, DatabaseHalfFails(now, absent, operation)),
                    told + DatabaseFaults(errs), reported + errs)
  {
    hide DatabaseFaults, DatabaseHalfFails, FailedAfter, SameMirrors;
    assert (done + [operation])[..|done|] == done;
    FailsAlike(sources, now, absent, operation);
    MirrorsJoin(sources, now, after);
    DatabaseFaultsJoin(reported, errs);
  }

  /**
   * Any run of claims, state writes and drains, closed by a drain, reports every database
   * failure exactly once.
   */
  method Perform(store: CoordinatorActionStore, operations: seq<Operation>) returns (reported: seq<Fault>)
    requires store.Valid() && store.failed == store.told == multiset{}
    modifies store, store.database, store.ledger
    ensures store.Valid() && store.deferred == []
    ensures DatabaseFaults(reported) == store.failed
    ensures store.failed == FailedCalls(old(store.sources), store.database == null, operations, old(store.calls))
    ensures forall e :: e in store.failed ==> store.failed[e] == 1
  {
    reported := [];
    ghost var sources, first, absent := store.sources, store.calls, store.database == null;
    AccountStarts(sources, absent, first);
    assert operations[..0] == [];
    for i := 0 to |operations|
      invariant store.Valid()
      invariant Account(sources, absent, first, operations[..i],
                        store.sources, store.calls, store.failed, store.told, reported)
    {
      hide *;
      reported := PerformNext(store, operations[i], reported, sources, absent, first, operations[..i]);
      assert operations[..i + 1] == operations[..i] + [operations[i]];
    }
    assert operations[..|operations|] == operations;
    reported := Finish(store, reported, sources, absent, first, operations);
  }

  method PerformNext(
      store: CoordinatorActionStore, operation: Operation, reported: seq<Fault>,
      ghost sources: map<Identity, Source>, ghost absent: bool, ghost first: nat, ghost done: seq<Operation>)
    returns (reported': seq<Fault>)
    requires store.Valid() && absent == (store.database == null)
    requires Account(sources, absent, first, done, store.sources, store.calls, store.failed, store.told, reported)
    modifies store, store.database, store.ledger
    ensures store.Valid()
    ensures Account(sources, absent, first, done + [operation],
                    store.sources, store.calls, store.failed, store.told, reported')
  {
    hide Account, Named, Ledger.Durable, DatabaseFaults, Conserved, FailedAfter, DatabaseHalfFails, SameMirrors;
    ghost var now, calls, failed, told := store.sources, store.calls, store.failed, store.told;
    var errs := PerformOne(store, operation);
    AccountNext(sources, absent, first, done, now, calls, failed, told, reported, operation, errs, store.sources);
    reported' := reported + errs;
  }

  /** The closing drain. */
  method Finish(
      store: CoordinatorActionStore, reported: seq<Fault>,
      ghost sources: map<Identity, Source>, ghost absent: bool, ghost first: nat, ghost done: seq<Operation>)
    returns (reported': seq<Fault>)
    requires store.Valid()
    requires Account(sources, absent, first, done, store.sources, store.calls, store.failed, store.told, reported)
    modifies store
    ensures store.Valid() && store.deferred == []
    ensures DatabaseFaults(reported') == store.failed == FailedCalls(sources, absent, done, first)
    ensures forall e :: e in store.failed ==> store.failed[e] == 1
  {
    hide Named, Ledger.Durable, DatabaseFaults, Conserved, FailedCalls, Calls, SameMirrors;
    OnceEach(store.failed, store.told, store.deferred, store.calls);
    var errs := store.DrainErrors();
    DatabaseFaultsJoin(reported, errs);
    reported' := reported + errs;
  }

  lemma OnceEach(failed: multiset<Fault>, told: multiset<Fault>, deferred: seq<Fault>, calls: nat)
    requires Conserved(failed, told, deferred, calls)
    ensures forall e :: e in failed ==> failed[e] == 1
  {
  }

  /** One operation: which failure it adds to the account, and that the mirrors stay what they are. */
  twostate predicate Performed(store: CoordinatorActionStore, operation: Operation, errs: seq<Fault>)
    reads store
  {
    && store.told == old(store.told) + DatabaseFaults(errs)
    && store.calls == old(store.calls) + (if operation.Drain? then 0 else 1)
    && SameMirrors(old(store.sources), store.sources)
    && store.failed == FailedAfter(old(store.failed), old(store.calls),
                                   DatabaseHalfFails(old(store.sources), store.database == null, operation))
  }

  method PerformOne(store: CoordinatorActionStore, operation: Operation) returns (errs: seq<Fault>)
    requires store.Valid()
    modifies store, store.database, store.ledger
    ensures store.Valid() && Performed(store, operation, errs)
  {
    hide Named, Ledger.Durable, DatabaseFaults, Conserved;
    match operation
    case Claim(_, _, _) => errs := PerformClaim(store, operation);
    case Set(_, _, _, _, _) => errs := PerformSet(store, operation);
    case SetByNumber(_, _, _, _, _, _) => errs := PerformSetByNumber(store, operation);
    case Drain => errs := store.DrainErrors();
  }

  method PerformClaim(store: CoordinatorActionStore, operation: Operation) returns (errs: seq<Fault>)
    requires store.Valid() && operation.Claim?
    modifies store, store.database, store.ledger
    ensures store.Valid() && Performed(store, operation, errs)
  {
    var id := IdentityOf(operation.action);
    MirrorsStay(store.sources, id, Restoring, "");
    assert FailedAfter(store.failed, store.calls, false) == store.failed;
    assert DatabaseHalfFails(store.sources, store.database == null, operation)
        == (HeldByDatabase(store.sources, id) && store.DatabaseFails(operation.reply));
    hide Named, Ledger.Durable, DatabaseFaults, Conserved, Errors, DeferredAfter, DiskAfter, DatabaseClaimed, Rewritten;
    hide SameMirrors, WithAction, DatabaseHalfFails, FailedAfter;
    var claimed;
    claimed, errs := store.ClaimAction(operation.action, operation.reply, operation.io);
  }

  method PerformSet(store: CoordinatorActionStore, operation: Operation) returns (errs: seq<Fault>)
    requires store.Valid() && operation.Set?
    modifies store, store.database, store.ledger
    ensures store.Valid() && Performed(store, operation, errs)
  {
    var id := IdentityOf(operation.action);
    MirrorsStay(store.sources, id, operation.state, operation.detail);
    assert FailedAfter(store.failed, store.calls, false) == store.failed;
    assert DatabaseHalfFails(store.sources, store.database == null, operation)
        == (HeldByDatabase(store.sources, id) && store.DatabaseFails(operation.reply));
    hide Named, Ledger.Durable, DatabaseFaults, Conserved, Errors, DeferredAfter, DiskSet, DatabaseSet;
    hide SameMirrors, SourcesSet, DatabaseHalfFails, FailedAfter;
    errs := store.SetActionState(operation.action, operation.state, operation.detail, operation.reply, operation.io);
  }

  method PerformSetByNumber(store: CoordinatorActionStore, operation: Operation) returns (errs: seq<Fault>)
    requires store.Valid() && operation.SetByNumber?
    modifies store, store.database, store.ledger
    ensures store.Valid() && Performed(store, operation, errs)
  {
    var runID, sequence := operation.runID, operation.sequence;
    forall id | id in store.sources
      ensures forall written :: SameMirrors(store.sources, SourcesSet(store.sources, id, written, operation.state, operation.detail))
    {
      MirrorsStay(store.sources, id, operation.state, operation.detail);
    }
    assert SameMirrors(store.sources, store.sources);
    assert FailedAfter(store.failed, store.calls, false) == store.failed;
    NumberedFails(store.sources, store.database == null, operation);
    hide Named, Ledger.Durable, DatabaseFaults, Conserved, Errors, DeferredAfter, DiskSet, DatabaseSet;
    hide SameMirrors, SourcesSet, DatabaseHalfFails, FailedAfter, Matches, Unmatched, Twofold;
    errs := store.SetState(
      operation.runID, operation.sequence, operation.state, operation.detail, operation.reply, operation.io);
  }
}
