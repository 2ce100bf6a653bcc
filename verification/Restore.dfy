/** The restore coordinator (internal/gsbench/restore.go:216-489). */
module Restore {
  import opened Actions
  import opened Common
  import opened Text
  import Plan = RestorePlan

  datatype Outcome =
    | Success | CompletedWithWarnings | Unverified | NotApplicable
    | Degraded | NotImplemented | Failed | RestoreFailed

  /** The calls a coordinator makes to its backend. */
  datatype Call =
    | Acquire
    | Validate
    | Discover
    | MarkRequested(runID: string)
    | StopSessions(runID: string)
    | ActionGroup(group: seq<Action>)
    | RepairBaseline
    | Reconcile
    | RedetectTopology
    | VerifyRestore
    | MarkOutcome(runID: string, outcome: Outcome)
    | AfterSuccess
    | Release

  /** The part of the protocol a call belongs to. */
  function Phase(c: Call): nat {
    match c
    case Acquire => 0
    case Validate => 1
    case Discover => 2
    case MarkRequested(_) => 3
    case StopSessions(_) => 4
    case ActionGroup(_) => 5
    case RepairBaseline => 6
    case Reconcile => 7
    case RedetectTopology => 8
    case VerifyRestore => 9
    case MarkOutcome(_, _) => 10
    case AfterSuccess => 11
    case Release => 12
  }

  /** The phase of the latest call. */
  function Reached(calls: seq<Call>): nat { if calls == [] then 0 else Phase(calls[|calls| - 1]) }

  /** No phase is entered again once a later one began. */
  predicate InPhases(calls: seq<Call>) {
    calls == [] || (InPhases(calls[..|calls| - 1]) && Reached(calls[..|calls| - 1]) <= Phase(calls[|calls| - 1]))
  }

  lemma {:induction false} PhasesOrdered(calls: seq<Call>, i: nat, j: nat)
    requires InPhases(calls) && i < j < |calls|
    ensures Phase(calls[i]) <= Phase(calls[j])
  {
    var rest := calls[..|calls| - 1];
    if j < |calls| - 1 {
      PhasesOrdered(rest, i, j);
    } else if i < |rest| - 1 {
      PhasesOrdered(rest, i, |rest| - 1);
    }
  }

  lemma PhasesBelow(calls: seq<Call>)
    requires InPhases(calls)
    ensures forall c :: c in calls ==> Phase(c) <= Reached(calls)
  {
    forall c | c in calls ensures Phase(c) <= Reached(calls) {
      var i :| 0 <= i < |calls| && calls[i] == c;
      if i < |calls| - 1 { PhasesOrdered(calls, i, |calls| - 1); }
    }
  }

  lemma InPhasesSnoc(calls: seq<Call>, c: Call)
    requires InPhases(calls) && Reached(calls) <= Phase(c)
    ensures InPhases(calls + [c]) && Reached(calls + [c]) == Phase(c)
  {
    assert (calls + [c])[..|calls|] == calls;
  }

  /** The actions whose inverse the calls asked for, in order. */
  function Undone(calls: seq<Call>): seq<Action> {
    if calls == [] then []
    else Undone(calls[..|calls| - 1]) + (if calls[|calls| - 1].ActionGroup? then calls[|calls| - 1].group else [])
  }

  lemma UndoneSnoc(calls: seq<Call>, c: Call)
    ensures Undone(calls + [c]) == if c.ActionGroup? then Undone(calls) + c.group else Undone(calls)
  {
    assert (calls + [c])[..|calls|] == calls;
    assert Undone(calls) + [] == Undone(calls);
  }

  /** A call of `c` that failed. */
  ghost predicate Faults(errs: seq<Call>, runID: string) {
    exists e :: e in errs && e.MarkOutcome? && e.runID == runID
  }

  /**
   * What the backend answers; `safe` and `planChange` are the run-id pattern and the scenario
   * catalogue, `analyzes` the reader of SQL payloads. `reconcile` and `after` are None when the backend or the
   * request does not have that step; a failed outcome write may still have been stored.
   */
  datatype Backend = Backend(
    safe: string -> bool, planChange: int -> bool, analyzes: Plan.Analyzes,
    acquire: bool, validate: bool, discover: bool,
    mark: string -> bool, stop: string -> bool, undo: seq<Action> -> bool,
    repair: bool, reconcile: Option<bool>, redetect: bool, verify: bool,
    first: string -> Reply, second: string -> Reply,
    after: Option<bool>, release: bool
  )

  /** What a discovery found. */
  datatype Discovery = Discovery(runs: seq<Plan.Run>, database: seq<Action>, local: seq<Action>)

  datatype Request = Request(runID: string, dryRun: bool, completed: Outcome)

  datatype Summary = Summary(
    runIDs: seq<string>, planned: seq<Action>, complete: bool, released: bool, failed: bool, outcome: Outcome,
    errs: seq<Call>
  )

  /** The outcome a run gets when its restore succeeds. */
  function SuccessfulOutcome(request: Request): (o: Outcome)
    ensures o != Outcome.RestoreFailed
  {
    match request.completed
    case Success | NotApplicable | Degraded | NotImplemented | Failed => request.completed
    case _ => Success
  }

  function FailedSummary(runIDs: seq<string>, planned: seq<Action>, errs: seq<Call>): Summary {
    Summary(runIDs, planned, false, false, true, Outcome.RestoreFailed, errs)
  }

  ghost predicate Distinct(ids: seq<string>) {
    forall i, j :: 0 <= i < j < |ids| ==> ids[i] != ids[j]
  }

  class Coordinator {
    var calls: seq<Call>
    var outcomes: map<string, Outcome>

    constructor ()
      ensures calls == [] && outcomes == map[]
    {
      calls, outcomes := [], map[];
    }

    method Tell(c: Call)
      requires InPhases(calls) && Reached(calls) <= Phase(c)
      modifies this`calls
      ensures InPhases(calls) && calls == old(calls) + [c] && Reached(calls) == Phase(c)
      ensures Undone(calls) == if c.ActionGroup? then Undone(old(calls)) + c.group else Undone(old(calls))
    {
      hide Phase, Undone, InPhases, Reached;
      UndoneSnoc(calls, c);
      InPhasesSnoc(calls, c);
      calls := calls + [c];
    }

    /** Makes a call and keeps its failure. */
    method Try(c: Call, ok: bool, errs: seq<Call>) returns (errs': seq<Call>)
      requires InPhases(calls) && Reached(calls) <= Phase(c)
      requires !c.ActionGroup?
      modifies this`calls
      ensures InPhases(calls) && calls == old(calls) + [c] && Undone(calls) == Undone(old(calls))
      ensures c in calls && Reached(calls) == Phase(c)
      ensures errs' == (if ok then errs else errs + [c])
      ensures forall g :: g in calls && g.ActionGroup? ==> g in old(calls)
    {
      hide Undone, InPhases;
      Tell(c);
      errs' := if ok then errs else errs + [c];
    }

    ghost predicate Marking()
      reads this
    {
      InPhases(calls) && Reached(calls) <= 10
    }

    method MarkRestoreOutcome(runID: string, outcome: Outcome, reply: Reply) returns (ok: bool)
      requires Marking()
      modifies this
      ensures Marking() && calls == old(calls) + [MarkOutcome(runID, outcome)]
      ensures Undone(calls) == Undone(old(calls))
      ensures ok == (reply == Done)
      ensures outcomes == if reply == Lost then old(outcomes) else old(outcomes)[runID := outcome]
    {
      Tell(MarkOutcome(runID, outcome));
      if reply != Lost { outcomes := outcomes[runID := outcome]; }
      ok := reply == Done;
    }

    /** Since `start` only outcomes were written. */
    ghost predicate OnlyMarks(start: seq<Call>)
      reads this
    {
      forall c :: c in calls ==> c in start || c.MarkOutcome?
    }

    /** Every outcome is written at the first attempt. */
    ghost predicate Stored(runs: seq<string>, backend: Backend) { forall r :: r in runs ==> backend.first(r) == Done }

    /** How the first attempts stand after the runs `done`, and which of them would have to be taken back. */
    ghost predicate Attempts(
        done: seq<string>, initial: Outcome, backend: Backend, written: map<string, Outcome>,
        outcome: Outcome, reconcile: seq<string>, errs: seq<Call>)
    {
      && outcome == (if errs == [] then initial else Outcome.RestoreFailed) && (errs == [] <==> Stored(done, backend))
      && (errs == [] ==> forall r :: r in done ==> r in written && written[r] == initial)
      && (forall r :: r in done && r !in reconcile && !Faults(errs, r) ==>
            r in written && written[r] == Outcome.RestoreFailed)
      && (forall r :: r in reconcile ==> r in done) && (initial == Outcome.RestoreFailed ==> reconcile == [])
      && (forall e :: e in errs ==> e.MarkOutcome? && e.runID in done)
    }

    lemma AttemptsNext(
        done: seq<string>, initial: Outcome, backend: Backend, written: map<string, Outcome>,
        outcome: Outcome, reconcile: seq<string>, errs: seq<Call>, run: string)
      requires Attempts(done, initial, backend, written, outcome, reconcile, errs) && run !in done
      ensures var ok := backend.first(run) == Done;
              Attempts(done + [run], initial, backend,
                       if backend.first(run) == Lost then written else written[run := outcome],
                       if ok then outcome else Outcome.RestoreFailed,
                       if outcome != Outcome.RestoreFailed then reconcile + [run] else reconcile,
                       if ok then errs else errs + [MarkOutcome(run, outcome)])
    {
      FaultsGrow(errs, if backend.first(run) == Done then errs else errs + [MarkOutcome(run, outcome)],
                 MarkOutcome(run, outcome));
      hide Faults;
    }

    method AttemptOutcomes(runs: seq<string>, initial: Outcome, backend: Backend)
      returns (outcome: Outcome, reconcile: seq<string>, errs: seq<Call>)
      requires Distinct(runs) && Marking()
      modifies this
      ensures Marking() && old(calls) <= calls && Undone(calls) == Undone(old(calls))
      ensures OnlyMarks(old(calls))
      ensures Attempts(runs, initial, backend, outcomes, outcome, reconcile, errs)
      ensures forall r :: r !in runs && r in old(outcomes) ==> r in outcomes && outcomes[r] == old(outcomes)[r]
    {
      assert Attempts([], initial, backend, outcomes, initial, [], []);
      hide Phase, Undone, InPhases, Reached, Attempts;
      outcome, errs, reconcile := initial, [], [];
      for i := 0 to |runs|
        invariant Marking() && old(calls) <= calls && Undone(calls) == Undone(old(calls))
        invariant OnlyMarks(old(calls))
        invariant Attempts(runs[..i], initial, backend, outcomes, outcome, reconcile, errs)
        invariant forall r :: r !in runs && r in old(outcomes) ==> r in outcomes && outcomes[r] == old(outcomes)[r]
      {
        assert runs[i] !in runs[..i];
        assert runs[..i + 1] == runs[..i] + [runs[i]];
        AttemptsNext(runs[..i], initial, backend, outcomes, outcome, reconcile, errs, runs[i]);
        var attempted := outcome;
        var ok := MarkRestoreOutcome(runs[i], attempted, backend.first(runs[i]));
        if attempted != Outcome.RestoreFailed {
          reconcile := reconcile + [runs[i]];
          if !ok { outcome := Outcome.RestoreFailed; }
        }
        if !ok { errs := errs + [MarkOutcome(runs[i], attempted)]; }
      }
      assert runs[..|runs|] == runs;
    }

    method ReconcileOutcomes(reconcile: seq<string>, backend: Backend) returns (errs: seq<Call>)
      requires Marking()
      modifies this
      ensures Marking() && old(calls) <= calls && Undone(calls) == Undone(old(calls))
      ensures OnlyMarks(old(calls))
      ensures forall r :: r in reconcile && !Faults(errs, r) ==>
                r in outcomes && outcomes[r] == Outcome.RestoreFailed
      ensures forall e :: e in errs ==> e.MarkOutcome? && e.runID in reconcile
      ensures forall r :: r in old(outcomes) ==>
                r in outcomes && (outcomes[r] == old(outcomes)[r] || outcomes[r] == Outcome.RestoreFailed)
      ensures forall r :: r !in reconcile && r in old(outcomes) ==> outcomes[r] == old(outcomes)[r]
    {
      hide Phase, Undone, InPhases;
      errs := [];
      for i := 0 to |reconcile|
        invariant Marking() && old(calls) <= calls && Undone(calls) == Undone(old(calls))
        invariant OnlyMarks(old(calls))
        invariant forall r :: r in reconcile[..i] && !Faults(errs, r) ==>
                    r in outcomes && outcomes[r] == Outcome.RestoreFailed
        invariant forall e :: e in errs ==> e.MarkOutcome? && e.runID in reconcile
        invariant forall r :: r in old(outcomes) ==>
                    r in outcomes && (outcomes[r] == old(outcomes)[r] || outcomes[r] == Outcome.RestoreFailed)
        invariant forall r :: r !in reconcile && r in old(outcomes) ==> outcomes[r] == old(outcomes)[r]
      {
        ghost var before := errs;
        var ok := MarkRestoreOutcome(reconcile[i], Outcome.RestoreFailed, backend.second(reconcile[i]));
        if !ok { errs := errs + [MarkOutcome(reconcile[i], Outcome.RestoreFailed)]; }
        FaultsGrow(before, errs, MarkOutcome(reconcile[i], Outcome.RestoreFailed));
      }
      assert reconcile[..|reconcile|] == reconcile;
    }

    /**
     * All runs end with the same outcome or the difference is reported: without errors every
     * run has the initial one, and after any error every run that no error names is failed.
     */
    method MarkTerminalRestoreOutcomes(runs: seq<string>, initial: Outcome, backend: Backend) returns (errs: seq<Call>)
      requires Distinct(runs) && Marking()
      modifies this
      ensures Marking() && old(calls) <= calls && Undone(calls) == Undone(old(calls))
      ensures OnlyMarks(old(calls))
      ensures errs == [] <==> Stored(runs, backend)
      ensures errs == [] ==> forall r :: r in runs ==> r in outcomes && outcomes[r] == initial
      ensures errs != [] ==> forall r :: r in runs && !Faults(errs, r) ==>
                r in outcomes && outcomes[r] == Outcome.RestoreFailed
      ensures forall e :: e in errs ==> e.MarkOutcome? && e.runID in runs
      ensures forall r :: r !in runs && r in old(outcomes) ==> r in outcomes && outcomes[r] == old(outcomes)[r]
    {
      hide Phase, Undone, InPhases;
      var outcome: Outcome, reconcile: seq<string>;
      outcome, reconcile, errs := AttemptOutcomes(runs, initial, backend);
      if outcome != Outcome.RestoreFailed || initial == Outcome.RestoreFailed { return; }
      ghost var before := errs;
      var more := ReconcileOutcomes(reconcile, backend);
      errs := errs + more;
      FaultsJoin(before, more);
    }

    /** What the group loop added to the calls, and which of it failed. */
    ghost predicate Grouped(start: seq<Call>, failed: seq<Call>, backend: Backend)
      reads this
    {
      && InPhases(calls) && start <= calls && Reached(calls) <= 5
      && (forall i :: |start| <= i < |calls| ==> (
            calls[i].ActionGroup? && calls[i].group != [] && (calls[i] in failed <==> !backend.undo(calls[i].group))))
      && (forall e :: e in failed ==> e.ActionGroup? && !backend.undo(e.group) && e in calls[|start|..])
    }

    ghost function DoneBefore(runIDs: seq<string>, plan: seq<Action>, stage: nat, run: nat): seq<Action> {
      Plan.Before(Plan.RunOrder(runIDs), plan, stage, run)
    }

    /** The stages in order and, in each, the runs in order: exactly the plan, whatever fails. */
    method RestoreGroups(analyzes: Plan.Analyzes, plan: seq<Action>, runIDs: seq<string>, backend: Backend)
      returns (failed: seq<Call>)
      requires Plan.Planned(analyzes, runIDs, plan)
      requires InPhases(calls) && Reached(calls) < 5
      modifies this`calls
      ensures Grouped(old(calls), failed, backend)
      ensures Undone(calls) == Undone(old(calls)) + plan
    {
      assert Grouped(calls, [], backend);
      hide Undone, InPhases, Reached, Plan.Planned, DoneBefore, Grouped;
      ghost var start := calls;
      failed := [];
      GroupingEnds(analyzes, runIDs, plan, Plan.SESSIONS);
      assert Undone(start) + [] == Undone(start);
      for stage: nat := Plan.SESSIONS to Plan.DATABASE + 1
        invariant Grouped(start, failed, backend)
        invariant Undone(calls) == Undone(start) + DoneBefore(runIDs, plan, stage, 0)
      {
        failed := RestoreStage(analyzes, plan, runIDs, backend, stage, start, failed);
        GroupingEnds(analyzes, runIDs, plan, stage);
      }
    }

    lemma GroupingStep(analyzes: Plan.Analyzes, runIDs: seq<string>, plan: seq<Action>, stage: nat, run: nat)
      requires Plan.Planned(analyzes, runIDs, plan) && run < |runIDs|
      ensures DoneBefore(runIDs, plan, stage, run + 1)
           == DoneBefore(runIDs, plan, stage, run) + Plan.Group(plan, runIDs[run], stage)
    {
      Plan.BeforeStep(analyzes, runIDs, plan, stage, run);
    }

    lemma GroupingEnds(analyzes: Plan.Analyzes, runIDs: seq<string>, plan: seq<Action>, stage: nat)
      requires Plan.Planned(analyzes, runIDs, plan)
      ensures DoneBefore(runIDs, plan, Plan.SESSIONS, 0) == []
      ensures DoneBefore(runIDs, plan, stage, |runIDs|) == DoneBefore(runIDs, plan, stage + 1, 0)
      ensures DoneBefore(runIDs, plan, Plan.DATABASE + 1, 0) == plan
    {
      Plan.StageEnds(runIDs, plan, stage);
    }

    method RestoreStage(
        analyzes: Plan.Analyzes, plan: seq<Action>, runIDs: seq<string>, backend: Backend, stage: nat,
        ghost start: seq<Call>, failed: seq<Call>)
      returns (failed': seq<Call>)
      requires Plan.Planned(analyzes, runIDs, plan) && Grouped(start, failed, backend)
      requires Undone(calls) == Undone(start) + DoneBefore(runIDs, plan, stage, 0)
      modifies this`calls
      ensures Grouped(start, failed', backend)
      ensures Undone(calls) == Undone(start) + DoneBefore(runIDs, plan, stage, |runIDs|)
    {
      hide Undone, InPhases, Plan.Planned, Plan.Group, DoneBefore;
      failed' := failed;
      for run := 0 to |runIDs|
        invariant Grouped(start, failed', backend)
        invariant Undone(calls) == Undone(start) + DoneBefore(runIDs, plan, stage, run)
      {
        GroupingStep(analyzes, runIDs, plan, stage, run);
        var group := Plan.RestoreActionGroup(plan, runIDs[run], stage);
        ghost var before := DoneBefore(runIDs, plan, stage, run);
        assert Undone(start) + (before + group) == (Undone(start) + before) + group;
        if group == [] {
          assert before + [] == before;
          continue;
        }
        failed' := RestoreGroup(group, backend, start, failed');
      }
    }

    method RestoreGroup(group: seq<Action>, backend: Backend, ghost start: seq<Call>, failed: seq<Call>)
      returns (failed': seq<Call>)
      requires Grouped(start, failed, backend) && group != []
      modifies this`calls
      ensures Grouped(start, failed', backend) && Undone(calls) == Undone(old(calls)) + group
    {
      hide Undone, InPhases;
      ghost var before := calls;
      Tell(ActionGroup(group));
      failed' := if backend.undo(group) then failed else failed + [ActionGroup(group)];
      assert calls[|start|..] == before[|start|..] + [ActionGroup(group)];
    }

    method RequestRestores(runIDs: seq<string>, backend: Backend) returns (errs: seq<Call>)
      requires InPhases(calls) && Reached(calls) <= 3
      modifies this`calls
      ensures InPhases(calls) && old(calls) <= calls && Undone(calls) == Undone(old(calls))
      ensures Reached(calls) <= 3
      ensures forall r :: r in runIDs ==> MarkRequested(r) in calls
      ensures errs == [] <==> forall r :: r in runIDs ==> backend.mark(r)
    {
      hide Undone, InPhases;
      errs := [];
      for i := 0 to |runIDs|
        invariant InPhases(calls) && old(calls) <= calls && Undone(calls) == Undone(old(calls))
        invariant Reached(calls) <= 3
        invariant forall k :: 0 <= k < i ==> MarkRequested(runIDs[k]) in calls
        invariant errs == [] <==> forall k :: 0 <= k < i ==> backend.mark(runIDs[k])
      {
        errs := Try(MarkRequested(runIDs[i]), backend.mark(runIDs[i]), errs);
      }
    }

    method StopRuns(runIDs: seq<string>, backend: Backend, errs: seq<Call>) returns (errs': seq<Call>)
      requires InPhases(calls) && Reached(calls) <= 3
      modifies this`calls
      ensures InPhases(calls) && old(calls) <= calls && Undone(calls) == Undone(old(calls))
      ensures Reached(calls) < 5
      ensures forall r :: r in runIDs ==> StopSessions(r) in calls
      ensures errs' == [] <==> errs == [] && forall r :: r in runIDs ==> backend.stop(r)
    {
      hide Undone, InPhases;
      errs' := errs;
      for i := 0 to |runIDs|
        invariant InPhases(calls) && old(calls) <= calls && Undone(calls) == Undone(old(calls))
        invariant Reached(calls) <= 4
        invariant forall k :: 0 <= k < i ==> StopSessions(runIDs[k]) in calls
        invariant errs' == [] <==> errs == [] && forall k :: 0 <= k < i ==> backend.stop(runIDs[k])
      {
        errs' := Try(StopSessions(runIDs[i]), backend.stop(runIDs[i]), errs');
      }
    }

    /** After the groups: repair, reconciliation, topology, verification. */
    method Conclude(planChange: bool, backend: Backend, actionErrs: seq<Call>, errs: seq<Call>)
      returns (errs': seq<Call>)
      requires InPhases(calls) && Reached(calls) <= 5
      modifies this`calls
      ensures Marking() && old(calls) <= calls && Undone(calls) == Undone(old(calls)) && VerifyRestore in calls
      ensures Reached(calls) <= 9
      ensures forall g :: g in calls && g.ActionGroup? ==> g in old(calls)
      ensures errs' == [] <==>
                && errs == [] && backend.redetect && backend.verify && (planChange ==> backend.repair)
                && (actionErrs != [] ==> backend.reconcile == Some(true))
    {
      hide Undone, InPhases;
      errs' := errs;
      if planChange {
        errs' := Try(RepairBaseline, backend.repair, errs');
      }
      var reconciled := false;
      if actionErrs != [] && backend.reconcile.Some? {
        errs' := Try(Reconcile, backend.reconcile.value, errs');
        reconciled := backend.reconcile.value;
      }
      errs' := Try(RedetectTopology, backend.redetect, errs');
      errs' := Try(VerifyRestore, backend.verify, errs');
      if !backend.verify || !reconciled {
        errs' := errs' + actionErrs;
      }
    }

    /** Every run could be marked and its sessions stopped. */
    ghost predicate Requested(runIDs: seq<string>, backend: Backend) {
      forall r :: r in runIDs ==> backend.mark(r) && backend.stop(r)
    }

    /** The steps after the groups succeed. */
    ghost predicate Concluded(planChange: bool, backend: Backend) {
      backend.redetect && backend.verify && (planChange ==> backend.repair)
    }

    /** Every group failure was forgiven by the reconciliation. */
    ghost predicate Forgiven(backend: Backend)
      reads this
    {
      forall c :: c in calls && c.ActionGroup? ==> backend.undo(c.group) || backend.reconcile == Some(true)
    }

    ghost predicate Announced(runIDs: seq<string>)
      reads this
    {
      && VerifyRestore in calls
      && forall r :: r in runIDs ==> MarkRequested(r) in calls && StopSessions(r) in calls
    }

    /** Everything between the discovery and the outcomes. */
    method RestoreRuns(
        analyzes: Plan.Analyzes, plan: seq<Action>, runIDs: seq<string>, planChange: bool, backend: Backend)
      returns (errs: seq<Call>)
      requires Plan.Planned(analyzes, runIDs, plan)
      requires InPhases(calls) && Reached(calls) < 3
      modifies this`calls
      ensures Marking() && old(calls) <= calls && Announced(runIDs)
      ensures Reached(calls) <= 9
      ensures Undone(calls) == Undone(old(calls)) + plan
      ensures errs == [] <==> Requested(runIDs, backend) && Concluded(planChange, backend) && Forgiven(backend)
    {
      hide Undone, InPhases, Plan.Planned, Phase;
      errs := RequestRestores(runIDs, backend);
      ghost var requested := calls;
      errs := StopRuns(runIDs, backend, errs);
      ghost var announced := calls;
      PhasesBelow(announced);
      assert forall c :: c in announced ==> Phase(c) < 5;
      var failed := RestoreGroups(analyzes, plan, runIDs, backend);
      ghost var grouped := calls;
      GroupsForgiven(announced, failed, backend);
      hide Grouped;
      errs := Conclude(planChange, backend, failed, errs);
      assert requested <= announced <= grouped <= calls;
    }

    /** Failed groups are forgiven exactly when the reconciliation succeeds. */
    lemma GroupsForgiven(start: seq<Call>, failed: seq<Call>, backend: Backend)
      requires Grouped(start, failed, backend) && forall c :: c in start ==> Phase(c) < 5
      ensures Forgiven(backend) <==> (failed != [] ==> backend.reconcile == Some(true))
    {
      forall c | c in calls && c.ActionGroup? ensures backend.undo(c.group) || failed != [] {
        assert forall k :: 0 <= k < |start| ==> calls[k] == start[k] && start[k] in start;
      }
      assert failed != [] ==> failed[0] in calls[|start|..] && !backend.undo(failed[0].group);
    }

    /** The restore mutex was taken and given back, once each, around everything else. */
    ghost predicate Released(backend: Backend)
      reads this
    {
      && |calls| > 0 && calls[0] == Acquire
      && if backend.acquire then |calls| > 1 && calls[|calls| - 1] == Release && Release !in calls[..|calls| - 1]
         else |calls| == 1
    }

    method RecordOutcomes(runIDs: seq<string>, completed: Outcome, backend: Backend, errs: seq<Call>)
      returns (errs': seq<Call>)
      requires Distinct(runIDs) && Marking() && completed != Outcome.RestoreFailed
      modifies this
      ensures Marking() && old(calls) <= calls && Undone(calls) == Undone(old(calls))
      ensures forall c :: c in calls ==> c in old(calls) || c.MarkOutcome?
      ensures errs' == [] <==> errs == [] && Stored(runIDs, backend)
      ensures errs' == [] ==> forall r :: r in runIDs ==> r in outcomes && outcomes[r] == completed
      ensures errs' != [] ==> forall r :: r in runIDs && !Faults(errs', r) ==>
                r in outcomes && outcomes[r] == Outcome.RestoreFailed
    {
      hide Undone, InPhases, Phase;
      var outcome := if errs == [] then completed else Outcome.RestoreFailed;
      var marking := MarkTerminalRestoreOutcomes(runIDs, outcome, backend);
      errs' := errs + marking;
      FaultsJoin(errs, marking);
    }

    /** The protected operation runs if all went well, then the mutex is released. */
    method Close(backend: Backend, errs: seq<Call>) returns (errs': seq<Call>)
      requires Marking() && |calls| > 0 && calls[0] == Acquire && backend.acquire
      modifies this`calls
      ensures InPhases(calls) && old(calls) < calls && Undone(calls) == Undone(old(calls)) && Released(backend)
      ensures forall g :: g in calls && g.ActionGroup? ==> g in old(calls)
      ensures errs <= errs' && forall e :: e in errs' ==> e in errs || e == AfterSuccess || e == Release
      ensures errs' == [] <==> errs == [] && backend.after != Some(false) && backend.release
      ensures AfterSuccess in calls <==> errs == [] && backend.after.Some?
    {
      hide Undone, InPhases;
      errs' := errs;
      if errs' == [] && backend.after.Some? {
        errs' := Try(AfterSuccess, backend.after.value, errs');
      }
      ghost var before := calls;
      PhasesBelow(before);
      errs' := Try(Release, backend.release, errs');
      assert calls[..|calls| - 1] == before;
    }

    /** All outcomes are written, and the protected operation and the release succeed. */
    ghost predicate Finished(runIDs: seq<string>, backend: Backend) {
      Stored(runIDs, backend) && backend.after != Some(false) && backend.release
    }

    method Finish(runIDs: seq<string>, completed: Outcome, backend: Backend, errs: seq<Call>) returns (errs': seq<Call>)
      requires Distinct(runIDs) && Marking() && |calls| > 0 && calls[0] == Acquire && backend.acquire
      requires completed != Outcome.RestoreFailed
      modifies this
      ensures InPhases(calls) && old(calls) < calls && Undone(calls) == Undone(old(calls)) && Released(backend)
      ensures errs' == [] <==> errs == [] && Finished(runIDs, backend)
      ensures errs' == [] ==> forall r :: r in runIDs ==> r in outcomes && outcomes[r] == completed
      ensures Recorded(runIDs, errs')
      ensures AfterSuccess in calls <==> errs == [] && Stored(runIDs, backend) && backend.after.Some?
      ensures (old(Forgiven(backend)) <==> Forgiven(backend)) && (old(Announced(runIDs)) ==> Announced(runIDs))
    {
      hide Undone, InPhases, Faults, Phase, Released, Recorded;
      var recorded := RecordOutcomes(runIDs, completed, backend, errs);
      errs' := Close(backend, recorded);
      StillRecorded(runIDs, recorded, errs');
    }

    /**
     * Once something up to the outcomes failed, every run that no outcome error names is
     * recorded as failed. (A failure to release, or of the protected operation, comes too late.)
     */
    ghost predicate Recorded(runIDs: seq<string>, errs: seq<Call>)
      reads this
    {
      (exists e :: e in errs && Phase(e) <= 10) ==>
        forall r :: r in runIDs && !Faults(errs, r) ==> r in outcomes && outcomes[r] == Outcome.RestoreFailed
    }

    lemma StillRecorded(runIDs: seq<string>, recorded: seq<Call>, errs: seq<Call>)
      requires recorded <= errs && forall e :: e in errs ==> e in recorded || e == AfterSuccess || e == Release
      requires recorded != [] ==> forall r :: r in runIDs && !Faults(recorded, r) ==>
                 r in outcomes && outcomes[r] == Outcome.RestoreFailed
      ensures Recorded(runIDs, errs)
    {
      FaultsJoin(recorded, errs[|recorded|..]);
      assert errs == recorded + errs[|recorded|..];
    }

    /** Nothing was requested, stopped or undone, and no outcome written. */
    ghost predicate Untouched()
      reads this
    {
      outcomes == map[] && forall c :: c in calls ==> !c.ActionGroup? && !c.MarkOutcome? && !c.StopSessions? && !c.MarkRequested?
    }

    /** A complete plan: the merged actions, without conflicts, in order. */
    ghost predicate PlanOf(runIDs: seq<string>, plan: seq<Action>, requested: string, found: Discovery, backend: Backend) {
      var wanted := Plan.Wanted(requested, found.database) + Plan.Wanted(requested, found.local);
      && Plan.Planned(backend.analyzes, runIDs, plan)
      && multiset(plan) == multiset(Plan.Merged(wanted)) && Plan.Consistent(wanted)
    }

    /** The discovery succeeds and what it finds has no conflicts. */
    ghost predicate Discoverable(requested: string, found: Discovery, backend: Backend) {
      backend.discover && Plan.Consistent(Plan.Wanted(requested, found.database) + Plan.Wanted(requested, found.local))
    }

    /** Discovers and plans; the plan is complete unless the discovery or the merge failed. */
    method Discovered(requested: string, found: Discovery, backend: Backend)
      returns (runIDs: seq<string>, plan: seq<Action>, complete: bool)
      requires InPhases(calls) && Reached(calls) < 2
      modifies this`calls
      ensures InPhases(calls) && calls == old(calls) + [Discover] && Undone(calls) == Undone(old(calls))
      ensures complete <==> Discoverable(requested, found, backend)
      ensures complete ==> PlanOf(runIDs, plan, requested, found, backend)
    {
      hide Undone, InPhases, Plan.Planned, Plan.Wanted, Plan.Merged, Plan.Consistent;
      Tell(Discover);
      var runs, actions, errs :=
        Plan.PrepareRestorePlan(backend.analyzes, found.runs, found.database, found.local, requested);
      runIDs, plan := Plan.RunIDs(runs), actions;
      complete := backend.discover && errs == [];
    }

    /** The mutex is given back before anything was touched. */
    method Abandon(backend: Backend)
      requires calls == [Acquire, Validate] || calls == [Acquire, Validate, Discover]
      requires backend.acquire && outcomes == map[]
      modifies this`calls
      ensures InPhases(calls) && Released(backend) && Untouched()
    {
      ghost var before := calls;
      InPhasesSnoc([], Acquire);
      InPhasesSnoc([Acquire], Validate);
      InPhasesSnoc([Acquire, Validate], Discover);
      assert [] + [Acquire] == [Acquire] && [Acquire] + [Validate] == [Acquire, Validate];
      assert [Acquire, Validate] + [Discover] == [Acquire, Validate, Discover];
      InPhasesSnoc(calls, Release);
      calls := calls + [Release];
      assert calls[..|calls| - 1] == before;
    }

    lemma NotAcquired(backend: Backend)
      requires calls == [Acquire] && !backend.acquire && outcomes == map[]
      ensures InPhases(calls) && Released(backend) && Untouched()
    {
      InPhasesSnoc([], Acquire);
      assert [] + [Acquire] == calls;
    }

    ghost predicate PlanChange(plan: seq<Action>, backend: Backend) {
      exists a :: a in plan && backend.planChange(a.scenario)
    }

    /** Every step of a restore succeeds, up to group failures that a reconciliation explains. */
    ghost predicate AllWell(runIDs: seq<string>, plan: seq<Action>, backend: Backend)
      reads this
    {
      && Requested(runIDs, backend) && Forgiven(backend) && Concluded(PlanChange(plan, backend), backend)
      && Finished(runIDs, backend)
    }

    /** What holds after a restore that had a complete plan. */
    ghost predicate Restored(request: Request, summary: Summary, backend: Backend)
      reads this
    {
      && Undone(calls) == summary.planned && Announced(summary.runIDs) && Recorded(summary.runIDs, summary.errs)
      && (summary.failed <==> !AllWell(summary.runIDs, summary.planned, backend))
      && (!summary.failed ==> forall r :: r in summary.runIDs ==>
            r in outcomes && outcomes[r] == SuccessfulOutcome(request))
    }

    /** The summary of a run of the coordinator, dry or not. */
    ghost predicate Summarized(requested: string, summary: Summary, found: Discovery, backend: Backend) {
      && summary.outcome == (if summary.failed then Outcome.RestoreFailed else Success)
      && (summary.complete ==> PlanOf(summary.runIDs, summary.planned, requested, found, backend))
      && (!summary.complete ==> summary.failed)
    }

    /** The whole restore, for a fresh coordinator. */
    method Restore(request: Request, found: Discovery, backend: Backend) returns (summary: Summary)
      requires calls == [] && outcomes == map[]
      modifies this
      ensures InPhases(calls)
      ensures var requested := TrimSpace(request.runID);
              if requested != "" && !backend.safe(requested) then
                summary.failed && !summary.complete && calls == [] && Untouched()
              else if request.dryRun then
                && calls == [Discover] && Untouched() && Summarized(requested, summary, found, backend)
                && (summary.complete <==> Discoverable(requested, found, backend)) && summary.failed == !summary.complete
              else
                && Released(backend) && Summarized(requested, summary, found, backend)
                && (summary.complete <==> backend.acquire && backend.validate && Discoverable(requested, found, backend))
                && if summary.complete then Restored(request, summary, backend) else Untouched()
    {
      assert InPhases(calls) && Undone(calls) == [];
      hide Undone, InPhases, Plan.Planned, TrimSpace, PlanOf, Released, Restored, Discoverable, Reached;
      var requested := TrimSpace(request.runID);
      if requested != "" && !backend.safe(requested) { return FailedSummary([], [], []); }
      if request.dryRun {
        summary := DryRun(requested, found, backend);
      } else {
        hide Untouched, Summarized;
        summary := RestoreLocked(request, requested, found, backend);
      }
    }

    method DryRun(requested: string, found: Discovery, backend: Backend) returns (summary: Summary)
      requires calls == [] && outcomes == map[]
      modifies this`calls
      ensures InPhases(calls) && calls == [Discover] && Untouched()
      ensures Summarized(requested, summary, found, backend) && summary.failed == !summary.complete
      ensures summary.complete <==> Discoverable(requested, found, backend)
    {
      assert InPhases(calls);
      hide Undone, InPhases, PlanOf, Discoverable;
      var ids, actions, ok := Discovered(requested, found, backend);
      assert calls == [Discover];
      summary := if ok then Summary(ids, actions, true, false, false, Success, [])
                 else FailedSummary(ids, actions, [Discover]);
    }

    method RestoreLocked(request: Request, requested: string, found: Discovery, backend: Backend)
      returns (summary: Summary)
      requires calls == [] && outcomes == map[]
      modifies this
      ensures InPhases(calls) && Released(backend) && Summarized(requested, summary, found, backend)
      ensures summary.complete <==> backend.acquire && backend.validate && Discoverable(requested, found, backend)
      ensures if summary.complete then Restored(request, summary, backend) else Untouched()
    {
      hide Undone, InPhases, Restored, Phase, Reached, Released, Untouched, Discoverable;
      var runIDs, plan, errs := Enter(requested, found, backend);
      if errs != [] { return FailedSummary(runIDs, plan, errs); }
      hide Plan.Planned;
      summary := RestoreFound(request, runIDs, plan, backend);
    }

    /** The mutex is taken, ownership validated and a complete plan made, or all is left as it was. */
    method Enter(requested: string, found: Discovery, backend: Backend)
      returns (runIDs: seq<string>, plan: seq<Action>, errs: seq<Call>)
      requires calls == [] && outcomes == map[]
      modifies this`calls
      ensures InPhases(calls)
      ensures errs == [] <==> backend.acquire && backend.validate && Discoverable(requested, found, backend)
      ensures if errs == [] then
                && backend.acquire && calls == [Acquire, Validate, Discover]
                && PlanOf(runIDs, plan, requested, found, backend)
              else Released(backend) && Untouched()
    {
      assert InPhases(calls) && Reached(calls) == 0 && [] + [Acquire] == [Acquire];
      assert [Acquire] + [Validate] == [Acquire, Validate];
      assert [Acquire, Validate] + [Discover] == [Acquire, Validate, Discover];
      hide Undone, InPhases, PlanOf, Released, Untouched, Discoverable, Reached;
      runIDs, plan, errs := [], [], [];
      Tell(Acquire);
      assert calls == [Acquire];
      if !backend.acquire {
        NotAcquired(backend);
        errs := [Acquire];
        return;
      }
      Tell(Validate);
      assert calls == [Acquire, Validate];
      if !backend.validate {
        Abandon(backend);
        errs := [Validate];
        return;
      }
      var complete: bool;
      runIDs, plan, complete := Discovered(requested, found, backend);
      assert calls == [Acquire, Validate, Discover];
      if !complete {
        Abandon(backend);
        errs := [Discover];
      }
    }

    method RestoreFound(request: Request, runIDs: seq<string>, plan: seq<Action>, backend: Backend)
      returns (summary: Summary)
      requires Plan.Planned(backend.analyzes, runIDs, plan) && backend.acquire
      requires InPhases(calls) && calls == [Acquire, Validate, Discover]
      modifies this
      ensures InPhases(calls) && Released(backend)
      ensures summary.complete && summary.runIDs == runIDs && summary.planned == plan
      ensures summary.outcome == if summary.failed then Outcome.RestoreFailed else Success
      ensures Restored(request, summary, backend)
    {
      NothingUndone();
      hide Undone, InPhases, Plan.Planned, Phase, Reached, Released, Recorded, Announced, AllWell;
      assert [] + plan == plan;
      var errs := Proceed(SuccessfulOutcome(request), runIDs, plan, backend);
      var outcome := if errs == [] then Success else Outcome.RestoreFailed;
      summary := Summary(runIDs, plan, true, Release !in errs, errs != [], outcome, errs);
    }

    /** From the requests to the release of the mutex. */
    method Proceed(completed: Outcome, runIDs: seq<string>, plan: seq<Action>, backend: Backend) returns (errs: seq<Call>)
      requires Plan.Planned(backend.analyzes, runIDs, plan) && backend.acquire && completed != Outcome.RestoreFailed
      requires InPhases(calls) && Reached(calls) < 3 && |calls| > 0 && calls[0] == Acquire
      modifies this
      ensures InPhases(calls) && Released(backend) && Undone(calls) == Undone(old(calls)) + plan
      ensures Announced(runIDs) && Recorded(runIDs, errs)
      ensures errs == [] <==> AllWell(runIDs, plan, backend)
      ensures errs == [] ==> forall r :: r in runIDs ==> r in outcomes && outcomes[r] == completed
    {
      assert Distinct(runIDs);
      hide Undone, InPhases, Plan.Planned, Released, Recorded, Distinct, Forgiven, Announced, Requested, Concluded, Finished, Phase, Reached;
      var planChange := exists a :: a in plan && backend.planChange(a.scenario);
      assert planChange == PlanChange(plan, backend);
      hide PlanChange;
      var early := RestoreRuns(backend.analyzes, plan, runIDs, planChange, backend);
      errs := Finish(runIDs, completed, backend, early);
    }
  }

  lemma NothingUndone()
    ensures Undone([Acquire, Validate, Discover]) == [] && Reached([Acquire, Validate, Discover]) == 2
  {
    UndoneSnoc([], Acquire);
    UndoneSnoc([Acquire], Validate);
    UndoneSnoc([Acquire, Validate], Discover);
    assert [Acquire] + [Validate] == [Acquire, Validate];
    assert [Acquire, Validate] + [Discover] == [Acquire, Validate, Discover];
    assert [] + [Acquire] == [Acquire];
  }

  lemma FaultsGrow(errs: seq<Call>, errs': seq<Call>, e: Call)
    requires e.MarkOutcome? && (errs' == errs || errs' == errs + [e])
    ensures forall r :: Faults(errs, r) ==> Faults(errs', r)
    ensures errs' != errs ==> Faults(errs', e.runID)
  {
    if errs' != errs { assert e in errs'; }
    forall r | Faults(errs, r) ensures Faults(errs', r) {
      var c :| c in errs && c.MarkOutcome? && c.runID == r;
      assert c in errs';
    }
  }

  lemma FaultsJoin(a: seq<Call>, b: seq<Call>)
    ensures forall r :: Faults(a, r) || Faults(b, r) ==> Faults(a + b, r)
  {
    forall r | Faults(a, r) || Faults(b, r) ensures Faults(a + b, r) {
      if Faults(a, r) {
        var c :| c in a && c.MarkOutcome? && c.runID == r;
        assert c in a + b;
      } else {
        var c :| c in b && c.MarkOutcome? && c.runID == r;
        assert c in a + b;
      }
    }
  }
}
