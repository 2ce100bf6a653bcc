/** Advisory run locks and the restore lock (internal/gsbench/run_lock.go:229-384, internal/gsbench/app.go:1302-1319, 1409-1458, 1683-2012). */
module RunLock {
  import opened Common

  /** A failed call may have taken effect on the server. */
  datatype TryAnswer = Granted | Taken | TryFailed(granted: bool, retryable: bool)

  datatype UnlockAnswer = Released | NotHeld | UnlockFailed(released: bool)

  /** What the server answers to the calls of one session, by their number. */
  datatype Script = Script(attempt: nat -> TryAnswer, unlock: nat -> UnlockAnswer, closes: bool)

  datatype Status = Open | Closed | Discarded

  function Reversed(keys: seq<string>): seq<string> {
    if keys == [] then [] else [keys[|keys| - 1]] + Reversed(keys[..|keys| - 1])
  }

  /** The last key acquired is the first one undone. */
  lemma {:induction false} ReverseOrder(keys: seq<string>, i: nat)
    requires i < |keys|
    ensures |Reversed(keys)| == |keys| && Reversed(keys)[i] == keys[|keys| - 1 - i]
  {
    if |keys| > 1 { ReverseOrder(keys[..|keys| - 1], if i > 0 then i - 1 else 0); }
  }

  function Keys(keys: seq<string>): set<string> { set k | k in keys }

  ghost predicate Distinct(keys: seq<string>) {
    forall i, j :: 0 <= i < j < |keys| ==> keys[i] != keys[j]
  }

  /**
   * A database session: the advisory locks it holds on the server, those its client cannot rule
   * out, and the unlocks it was asked for.
   */
  class Session {
    const script: Script
    var held: set<string>
    var mayHold: set<string>
    var status: Status
    var calls: nat
    var unlocks: seq<string>

    constructor (script: Script)
      ensures this.script == script && held == mayHold == {} && status == Open && unlocks == [] && calls == 0
    {
      this.script := script;
      held, mayHold, status, calls, unlocks := {}, {}, Open, 0, [];
    }

    predicate Live()
      reads this
    {
      status == Open && held <= mayHold
    }

    /** Given back to the pool or thrown away, and holding nothing. */
    predicate Finished()
      reads this
    {
      status != Open && held == {}
    }

    method TryLock(key: string) returns (acquired: bool, answer: TryAnswer)
      requires Live()
      modifies this
      ensures Live() && unlocks == old(unlocks) && calls == old(calls) + 1
      ensures answer == script.attempt(old(calls)) && acquired == answer.Granted?
      ensures held == if acquired || (answer.TryFailed? && answer.granted) then old(held) + {key} else old(held)
      ensures mayHold == if answer.Taken? then old(mayHold) else old(mayHold) + {key}
    {
      answer := script.attempt(calls);
      calls := calls + 1;
      acquired := answer.Granted?;
      if acquired || (answer.TryFailed? && answer.granted) { held := held + {key}; }
      if !answer.Taken? { mayHold := mayHold + {key}; }
    }

    method Unlock(key: string) returns (ok: bool)
      requires Live()
      modifies this
      ensures Live() && unlocks == old(unlocks) + [key]
      ensures held <= old(held) && mayHold <= old(mayHold)
      ensures ok ==> mayHold == old(mayHold) - {key} && held == old(held) - {key}
      ensures ok <==> script.unlock(old(calls)).Released?
      ensures calls == old(calls) + 1
    {
      var answer := script.unlock(calls);
      calls, unlocks := calls + 1, unlocks + [key];
      ok := answer.Released?;
      if !answer.UnlockFailed? || answer.released { held := held - {key}; }
      if !answer.UnlockFailed? { mayHold := mayHold - {key}; }
    }

    /** Back to the pool: only a session that certainly holds nothing may go there. */
    method Close() returns (ok: bool)
      requires Live() && mayHold == {}
      modifies this
      ensures Finished() && unlocks == old(unlocks) && status == Closed && ok == script.closes
    {
      status := Closed;
      ok := script.closes;
    }

    /** Ends the server session, and with it all of its locks. */
    method Discard() returns (ok: bool)
      requires Live()
      modifies this
      ensures Finished() && unlocks == old(unlocks) && status == Discarded && ok == script.closes
    {
      status, held, mayHold := Discarded, {}, {};
      ok := script.closes;
    }
  }

  /** The server confirms `n` unlocks from call number `from` on. */
  ghost predicate AllReleased(script: Script, from: nat, n: nat) {
    forall i :: from <= i < from + n ==> script.unlock(i).Released?
  }

  /** Unlocks in reverse order of acquisition, going on after failures. */
  method ReleaseDatabaseAdvisoryKeys(session: Session, keys: seq<string>) returns (ok: bool)
    requires session.Live()
    modifies session
    ensures session.Live() && session.unlocks == old(session.unlocks) + Reversed(keys)
    ensures ok <==> AllReleased(session.script, old(session.calls), |keys|)
    ensures ok ==> session.mayHold == old(session.mayHold) - Keys(keys)
  {
    ok := true;
    var index := |keys|;
    assert keys[..index] == keys;
    while index > 0
      invariant 0 <= index <= |keys| && session.Live()
      invariant session.unlocks + Reversed(keys[..index]) == old(session.unlocks) + Reversed(keys)
      invariant session.calls == old(session.calls) + (|keys| - index)
      invariant ok <==> AllReleased(session.script, old(session.calls), |keys| - index)
      invariant ok ==> session.mayHold == old(session.mayHold) - Keys(keys[index..])
    {
      index := index - 1;
      assert keys[..index + 1][..index] == keys[..index] && keys[index..] == [keys[index]] + keys[index + 1..];
      var unlocked := session.Unlock(keys[index]);
      if !unlocked { ok := false; }
    }
    assert keys[0..] == keys;
  }

  /** Undoes what was acquired; a session about which anything is uncertain is thrown away. */
  method CleanupSession(session: Session, acquired: seq<string>, discard: bool) returns (ok: bool)
    requires session.Live() && (!discard ==> session.mayHold == Keys(acquired))
    modifies session
    ensures session.Finished() && session.unlocks == old(session.unlocks) + Reversed(acquired)
    ensures discard ==> session.status == Discarded
    ensures ok <==> AllReleased(session.script, old(session.calls), |acquired|) && session.script.closes
  {
    var released := ReleaseDatabaseAdvisoryKeys(session, acquired);
    var finished: bool;
    if discard || !released {
      finished := session.Discard();
    } else {
      finished := session.Close();
    }
    ok := released && finished;
  }

  // ---- one lock ----

  /** The closure that gives a run lock back, and what it remembers. */
  class Lease {
    const session: Session
    const key: string
    var released: bool
    var failed: bool

    constructor (session: Session, key: string)
      ensures this.session == session && this.key == key && !released && !failed
    {
      this.session, this.key := session, key;
      released, failed := false, false;
    }

    /** Not yet given back: the session is open and holds the key, and nothing else for certain. */
    predicate Active()
      reads this, session
    {
      !released && session.Live() && session.held == session.mayHold == {key}
    }

    predicate Over()
      reads this, session
    {
      released && session.Finished()
    }

    /** Gives the lock back once, however often it is called. */
    method Release() returns (failure: bool)
      requires Active() || Over()
      modifies this, session
      ensures Over() && failure == failed
      ensures old(released) ==> unchanged(this) && unchanged(session)
      ensures !old(released) ==>
                && session.unlocks == old(session.unlocks) + [key]
                && (failure <==> !(AllReleased(session.script, old(session.calls), 1) && session.script.closes))
      ensures !failure && !old(released) ==> session.status == Closed
    {
      if released { return failed; }
      released := true;
      var unlocked := session.Unlock(key);
      if unlocked {
        var ok := session.Close();
        failed := !ok;
      } else {
        var ok := session.Discard();
        failed := true;
      }
      failure := failed;
    }
  }

  datatype Failure = Cancelled | NotOpened | Busy | Connectivity | Unsupported | OtherFailure

  /** A session can be opened and its first attempt is granted, or is refused because somebody else holds the key. */
  predicate Grants(opens: Option<Script>) { opens.Some? && opens.value.attempt(0).Granted? }

  predicate Refuses(opens: Option<Script>) { opens.Some? && opens.value.attempt(0).Taken? }

  /** Exclusive, or shared when the session knows shared locks (`supported`); `opens` is None when no session can be conn. */
  method AcquireDatabaseRunLock(key: string, opens: Option<Script>, cancelled: bool, supported: bool)
    returns (lease: Lease?, failure: Option<Failure>, ghost session: Session?)
    ensures lease != null <==> failure.None?
    ensures session != null ==> fresh(session)
    ensures lease != null <==> !cancelled && supported && Grants(opens)
    ensures failure == Some(Busy) <==> !cancelled && supported && Refuses(opens)
    ensures lease != null ==>
              && fresh(lease) && lease.session == session && lease.key == key && lease.Active()
              && session.script == opens.value && session.calls == 1
    ensures lease == null && session != null ==> session.Finished()
    ensures failure == Some(Busy) ==> session != null && session.status == Closed
  {
    lease, failure, session := null, None, null;
    if cancelled { return null, Some(Cancelled), null; }
    if opens.None? { return null, Some(NotOpened), null; }
    var conn := new Session(opens.value);
    session := conn;
    if !supported {
      var ok := conn.Close();
      return null, Some(Unsupported), conn;
    }
    var acquired, answer := conn.TryLock(key);
    if answer.TryFailed? {
      var ok := conn.Discard();
      return null, Some(if answer.retryable then Connectivity else OtherFailure), conn;
    }
    if !acquired {
      var ok := conn.Close();
      return null, Some(Busy), conn;
    }
    lease := new Lease(conn, key);
  }

  /** Whether somebody else holds the key; the probe itself never keeps it. */
  method ProbeDatabaseRunLock(key: string, session: Session) returns (heldElsewhere: bool, ok: bool)
    requires session.Live() && session.mayHold == {}
    modifies session
    ensures session.Finished()
    ensures heldElsewhere ==> session.script.attempt(old(session.calls)).Taken?
    ensures ok && !heldElsewhere ==> session.script.attempt(old(session.calls)).Granted?
  {
    var acquired, answer := session.TryLock(key);
    if answer.TryFailed? {
      var closed := session.Discard();
      return false, false;
    }
    if !acquired {
      ok := session.Close();
      return true, ok;
    }
    var unlocked := session.Unlock(key);
    if !unlocked {
      var closed := session.Discard();
      return false, false;
    }
    ok := session.Close();
    heldElsewhere := false;
  }

  // ---- the restore lock ----

  /** The process-wide restore mutex; releasing it twice does nothing. */
  class LocalLock {
    /** Whether its one release reports success. */
    const closes: bool
    var held: bool
    var releases: nat

    constructor (closes: bool)
      ensures held && releases == 0 && this.closes == closes
    {
      this.closes, held, releases := closes, true, 0;
    }

    method Release() returns (ok: bool)
      modifies this
      ensures !held && releases == (if old(held) then old(releases) + 1 else old(releases)) && ok == closes
    {
      if held { held, releases := false, releases + 1; }
      ok := closes;
    }
  }

  class DatabaseRestoreLock {
    var session: Session?
    var local: LocalLock?
    const keys: seq<string>
    var released: bool
    /** What the first release came to; every later one returns it again. */
    var failed: bool

    constructor (session: Session, keys: seq<string>, local: LocalLock)
      ensures this.session == session && this.local == local && this.keys == keys && !released
    {
      this.session, this.local, this.keys := session, local, keys;
      released, failed := false, false;
    }

    /** Held: the session has exactly the keys, and the local mutex is taken. */
    predicate Active()
      reads this, session, local
    {
      && !released && session != null && local != null
      && session.Live() && session.held == session.mayHold == Keys(keys) && local.held
    }

    predicate Over()
      reads this
    {
      released && session == null && local == null
    }

    /** Frees every key in reverse order and the mutex, once; how that ended is the answer of every call. */
    method Release() returns (failure: bool)
      requires Active() || Over()
      modifies this, session, local
      ensures Over() && failure == failed
      ensures old(released) ==> unchanged(this)
      ensures !old(released) ==>
                && old(session).Finished() && old(session).unlocks == old(session.unlocks) + Reversed(keys)
                && !old(local).held && old(local).releases == old(local.releases) + 1
                && (failure <==> !(AllReleased(old(session).script, old(session.calls), |keys|)
                                   && old(session).script.closes && old(local).closes))
    {
      if released { return failed; }
      released := true;
      var cleaned := CleanupSession(session, keys, false);
      session := null;
      var freed := local.Release();
      local := null;
      failed := !cleaned || !freed;
      failure := failed;
    }
  }

  /** What surrounds an acquisition: stop requests that fail, and how often a busy plan lock may be polled. */
  datatype Surroundings = Surroundings(connected: bool, stopRequest: nat -> bool, ping: bool, polls: nat)

  /**
   * Acquires the keys in order on a new session. The outcome is a lock on exactly the keys, or a
   * session that is finished, after the keys acquired so far were undone in reverse order.
   */
  method AcquireDatabaseLock(
      keys: seq<string>, planKey: string, requirePlan: bool, local: LocalLock, opens: Option<Script>, around: Surroundings)
    returns (lock: DatabaseRestoreLock?, failure: Option<Failure>, ghost session: Session?, ghost acquired: nat)
    requires local.held && Distinct(keys)
    ensures lock != null <==> failure.None?
    ensures acquired <= |keys| && (session != null ==> fresh(session))
    ensures lock != null ==>
              && fresh(lock) && lock.session == session && lock.keys == keys && lock.local == local && lock.Active()
              && session.unlocks == [] && acquired == |keys|
    ensures lock == null && session != null ==> session.Finished() && session.unlocks == Reversed(keys[..acquired])
  {
    lock, failure, session, acquired := null, None, null, 0;
    if !around.connected { return null, Some(Connectivity), null, 0; }
    if requirePlan && !around.stopRequest(0) {
      return null, Some(if around.ping then OtherFailure else Connectivity), null, 0;
    }
    if opens.None? { return null, Some(if around.ping then NotOpened else Connectivity), null, 0; }
    var conn := new Session(opens.value);
    session := conn;
    var index, polls := 0, 0;
    assert keys[..0] == [];
    while index < |keys|
      invariant 0 <= index <= |keys| && conn.Live() && conn.unlocks == []
      invariant conn.held == conn.mayHold == Keys(keys[..index])
    {
      var key := keys[index];
      var got := false;
      while !got
        invariant conn.Live() && conn.unlocks == []
        invariant conn.held == conn.mayHold == Keys(keys[..index]) + (if got then {key} else {})
        decreases !got, around.polls - polls
      {
        var answer: TryAnswer;
        got, answer := conn.TryLock(key);
        if answer.TryFailed? {
          var cleaned := CleanupSession(conn, keys[..index], true);
          return null, Some(if answer.retryable then Connectivity else OtherFailure), conn, index;
        }
        if got { break; }
        if !requirePlan || key != planKey {
          var cleaned := CleanupSession(conn, keys[..index], false);
          return null, Some(Busy), conn, index;
        }
        if !around.stopRequest(polls + 1) {
          var cleaned := CleanupSession(conn, keys[..index], false);
          return null, Some(OtherFailure), conn, index;
        }
        if polls >= around.polls {
          // The context ended while the plan lock was busy.
          var cleaned := CleanupSession(conn, keys[..index], false);
          return null, Some(Busy), conn, index;
        }
        polls := polls + 1;
      }
      assert keys[..index + 1] == keys[..index] + [key];
      index := index + 1;
    }
    assert keys[..index] == keys;
    acquired := |keys|;
    lock := new DatabaseRestoreLock(conn, keys, local);
  }

  // ---- plan lock, local mutex and database lock together ----

  class PlanFirstRestoreLock {
    var restore: DatabaseRestoreLock?
    var plan: Lease?
    var released: bool
    /** What the first release came to. */
    var failed: bool

    constructor (restore: DatabaseRestoreLock, plan: Lease)
      ensures this.restore == restore && this.plan == plan && !released
    {
      this.restore, this.plan, released, failed := restore, plan, false, false;
    }

    /** Held: both parts are, on sessions of their own. */
    ghost predicate Active()
      reads this, restore, plan, if restore != null then {restore.session, restore.local} else {},
            if plan != null then {plan.session} else {}
    {
      && !released && restore != null && plan != null
      && restore.Active() && plan.Active() && restore.session != plan.session
    }

    /** Frees the database keys, the local mutex and then the plan lock, once; every call returns how that ended. */
    method Release() returns (failure: bool)
      requires Active() || (released && restore == null && plan == null)
      modifies this, restore, plan, if restore != null then {restore.session, restore.local} else {},
               if plan != null then {plan.session} else {}
      ensures released && restore == null && plan == null && failure == failed
      ensures old(released) ==> unchanged(this)
      ensures !old(released) ==>
                && old(restore.session).Finished() && !old(restore.local).held
                && old(plan).Over() && old(plan.session).Finished()
                && (failure <==> old(restore).failed || old(plan).failed)
    {
      if released { return failed; }
      released := true;
      var restoring, planning := restore, plan;
      var restoreFailed := restoring.Release();
      var planFailed := planning.Release();
      restore, plan := null, null;
      failed := restoreFailed || planFailed;
      failure := failed;
    }
  }

  /** Polls for the plan lock until it is granted, refused for another reason, or the context ends. */
  method AcquirePlanLockForRestore(planKey: string, opens: nat -> Option<Script>, around: Surroundings)
    returns (lease: Lease?, failure: Option<Failure>, ghost made: set<Session>)
    ensures lease != null <==> failure.None?
    ensures fresh(made)
    ensures lease != null ==> fresh(lease) && lease.Active() && lease.key == planKey && lease.session in made
    ensures forall s :: s in made && (lease == null || s != lease.session) ==> s.Finished()
  {
    made := {};
    var polls := 0;
    while true
      invariant fresh(made) && forall s :: s in made ==> s.Finished()
      decreases around.polls - polls
    {
      if !around.stopRequest(polls) {
        return null, Some(if around.connected && around.ping then OtherFailure else Connectivity), made;
      }
      ghost var session: Session?;
      lease, failure, session := AcquireDatabaseRunLock(planKey, opens(polls), false, true);
      made := made + (if session != null then {session} else {});
      if lease != null { return; }
      if polls >= around.polls { return null, Some(OtherFailure), made; }
      if !around.connected || !around.ping { return null, Some(Connectivity), made; }
      polls := polls + 1;
    }
  }

  /** What one attempt meets: the sessions that can be conn and whether the local mutex is free. */
  datatype Attempt = Attempt(
    plan: nat -> Option<Script>, localFree: bool, localCloses: bool, database: Option<Script>, around: Surroundings
  )

  /** Plan lock, local mutex, database lock, in this order; or nothing of them. */
  method AcquirePlanFirstRestoreLock(keys: seq<string>, planKey: string, attempt: Attempt)
    returns (lock: PlanFirstRestoreLock?, failure: Option<Failure>, ghost made: set<Session>, ghost mutex: LocalLock?)
    requires Distinct(keys)
    ensures lock != null <==> failure.None?
    ensures fresh(made) && (mutex != null ==> fresh(mutex))
    ensures lock != null ==>
              && fresh(lock) && lock.Active() && lock.restore.local == mutex && mutex.held
              && lock.restore.keys == keys && lock.plan.key == planKey
              && (forall s :: s in made && s != lock.restore.session && s != lock.plan.session ==> s.Finished())
    ensures lock == null ==> (forall s :: s in made ==> s.Finished()) && (mutex != null ==> !mutex.held)
  {
    lock, mutex := null, null;
    var plan: Lease?;
    plan, failure, made := AcquirePlanLockForRestore(planKey, attempt.plan, attempt.around);
    if plan == null { return; }
    if !attempt.localFree {
      var failed := plan.Release();
      return null, Some(OtherFailure), made, null;
    }
    var local := new LocalLock(attempt.localCloses);
    mutex := local;
    var restore: DatabaseRestoreLock?;
    ghost var session: Session?, acquired;
    restore, failure, session, acquired := AcquireDatabaseLock(keys, planKey, false, local, attempt.database, attempt.around);
    made := made + (if session != null then {session} else {});
    if restore == null {
      var freed := local.Release();
      var failed := plan.Release();
      return null, failure, made, mutex;
    }
    lock := new PlanFirstRestoreLock(restore, plan);
  }

  /** All sessions are finished but those of the lock, and the mutexes are free but the lock's. */
  ghost predicate Clean(made: set<Session>, mutexes: set<LocalLock>, keepSessions: set<Session?>, keepMutex: LocalLock?)
    reads made, mutexes
  {
    && (forall s :: s in made && s !in keepSessions ==> s.Finished())
    && (forall m :: m in mutexes && m != keepMutex ==> !m.held)
  }

  /**
   * The plan-first acquisition with its one retry: when the database cannot be reached, control-plane
   * actions are restored under the local mutex alone before trying again.
   */
  method AcquireRestoreLockPlanFirst(
      keys: seq<string>, planKey: string, first: Attempt, recoveryFree: bool, reconnects: bool, second: Attempt)
    returns (lock: PlanFirstRestoreLock?, ghost made: set<Session>, ghost mutexes: set<LocalLock>)
    requires Distinct(keys)
    ensures fresh(made) && fresh(mutexes)
    ensures if lock == null then Clean(made, mutexes, {}, null)
            else
              && lock.Active() && lock.restore.keys == keys && lock.plan.key == planKey
              && Clean(made, mutexes, {lock.restore.session, lock.plan.session}, lock.restore.local)
  {
    var failure: Option<Failure>;
    ghost var mutex: LocalLock?;
    lock, failure, made, mutex := AcquirePlanFirstRestoreLock(keys, planKey, first);
    mutexes := if mutex != null then {mutex} else {};
    if lock != null || failure != Some(Connectivity) || !recoveryFree { return; }
    var local := new LocalLock(first.localCloses);
    // Control-plane actions are restored here, under the local mutex.
    var freed := local.Release();
    mutexes := mutexes + {local};
    if !reconnects { return; }
    ghost var more: set<Session>;
    lock, failure, more, mutex := AcquirePlanFirstRestoreLock(keys, planKey, second);
    made := made + more;
    mutexes := mutexes + (if mutex != null then {mutex} else {});
  }

  /** The local-first acquisition: the local mutex is kept across the retry and freed when all fails. */
  method AcquireRestoreLockLocalFirst(
      keys: seq<string>, planKey: string, requirePlan: bool, localFree: bool,
      first: Attempt, reconnects: bool, second: Attempt)
    returns (lock: DatabaseRestoreLock?, ghost made: set<Session>, ghost mutexes: set<LocalLock>)
    requires Distinct(keys)
    ensures fresh(made) && fresh(mutexes)
    ensures if lock == null then Clean(made, mutexes, {}, null)
            else lock.Active() && lock.keys == keys && Clean(made, mutexes, {lock.session}, lock.local)
  {
    made, mutexes := {}, {};
    if !localFree { return null, {}, {}; }
    var local := new LocalLock(first.localCloses);
    mutexes := {local};
    var failure: Option<Failure>;
    ghost var session: Session?, acquired;
    lock, failure, session, acquired := AcquireDatabaseLock(keys, planKey, requirePlan, local, first.database, first.around);
    made := if session != null then {session} else {};
    if lock != null { return; }
    if failure != Some(Connectivity) {
      var freed := local.Release();
      return;
    }
    if reconnects {
      lock, failure, session, acquired := AcquireDatabaseLock(keys, planKey, requirePlan, local, second.database, second.around);
      made := made + (if session != null then {session} else {});
      if lock != null { return; }
    }
    var freed := local.Release();
  }

  /** Attempt n is the first that is not refused as busy, and it is granted. */
  ghost predicate GrantedAt(opens: nat -> Option<Script>, n: nat) {
    Grants(opens(n)) && forall m :: 0 <= m < n ==> Refuses(opens(m))
  }

  lemma FirstGrant(opens: nat -> Option<Script>, tried: nat)
    requires forall m :: 0 <= m < tried ==> Refuses(opens(m))
    ensures forall n: nat :: GrantedAt(opens, n) ==> n >= tried && (n > tried ==> Refuses(opens(tried)))
  {
  }

  /** The lock of a granted attempt is given back without failure. */
  ghost predicate GivesBack(opens: Option<Script>) {
    opens.Some? && AllReleased(opens.value, 1, 1) && opens.value.closes
  }

  /** Waits for the dataset lock while it is busy, works under it, and gives it back whatever the work returns. */
  method WithDatasetLifecycleDatabaseLock(
      key: string, opens: nat -> Option<Script>, polls: nat, workSucceeds: bool)
    returns (ok: bool, ghost worked: bool, ghost made: set<Session>)
    ensures fresh(made) && forall s :: s in made ==> s.Finished()
    ensures worked <==> exists n: nat :: n <= polls && GrantedAt(opens, n)
    ensures ok <==> workSucceeds && exists n: nat :: n <= polls && GrantedAt(opens, n) && GivesBack(opens(n))
  {
    made, worked, ok := {}, false, false;
    var tried: nat := 0;
    while true
      invariant fresh(made) && forall s :: s in made ==> s.Finished()
      invariant !worked && !ok && tried <= polls && forall m :: 0 <= m < tried ==> Refuses(opens(m))
      decreases polls - tried
    {
      var lease: Lease?, failure: Option<Failure>;
      ghost var session: Session?;
      lease, failure, session := AcquireDatabaseRunLock(key, opens(tried), false, true);
      FirstGrant(opens, tried);
      if lease != null {
        // The work runs here, while the lease is active.
        worked := lease.Active();
        var failed := lease.Release();
        assert GrantedAt(opens, tried) && (failed <==> !GivesBack(opens(tried)));
        made := made + {lease.session};
        return workSucceeds && !failed, worked, made;
      }
      made := made + (if session != null then {session} else {});
      if failure != Some(Busy) || tried >= polls { return; }
      tried := tried + 1;
    }
  }

  /** A shared lease for the time of some work; a busy lock is not waited for. */
  method WithDatasetExecutionDatabaseLease(key: string, opens: Option<Script>, supported: bool, exitCode: int)
    returns (code: int, ok: bool, ghost worked: bool, ghost session: Session?)
    ensures session != null ==> fresh(session) && session.Finished()
    ensures worked <==> supported && Grants(opens)
    ensures ok <==> worked && GivesBack(opens)
    ensures code == if ok then exitCode else 1
  {
    var lease: Lease?, failure: Option<Failure>;
    lease, failure, session := AcquireDatabaseRunLock(key, opens, false, supported);
    if lease == null { return 1, false, false, session; }
    // The work runs here and returns exitCode.
    worked := lease.Active();
    var failed := lease.Release();
    code, ok := if failed then 1 else exitCode, !failed;
  }
}
