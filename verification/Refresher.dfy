/** The single-flight background refresher as a transition system over its threads (internal/app/refresher.go). */
module Refresher {

  /** A slot's goroutine: in its body, at the after-hook, about to clear `busy`, about to call Done. */
  datatype Phase = Collecting | Hooking | Leaving | Releasing

  datatype Worker = Worker(slot: nat, phase: Phase)

  /** An after-hook's goroutine: running, or about to call Done. */
  datatype Hook = Running | Finished

  /** Where the thread that holds the mutex for a trigger stands in its loop over the slots. */
  datatype Sweep = NoSweep | At(i: nat) | Claimed(i: nat) | Counted(i: nat)

  datatype StopPhase = WaitingWork | WaitingAfter | Returned

  datatype Gate = Gate(paused: bool, stopped: bool, wake: bool)

  /** The slots: which are busy, the wait group's counter, and the goroutines. */
  datatype Flight = Flight(sweep: Sweep, busy: set<nat>, work: int, workers: map<nat, Worker>)

  /** The after-hook: its flag, its wait group's counter, and its goroutines. */
  datatype Hooks = Hooks(busy: bool, after: int, hooks: map<nat, Hook>)

  /** `registered` tells whether there is an after-hook, `stoppers` where the callers of Stop are. */
  datatype State = State(
    slots: nat, registered: bool, gate: Gate, flight: Flight, hooks: Hooks, stoppers: map<nat, StopPhase>
  )

  function Initial(slots: nat, registered: bool): State {
    State(slots, registered, Gate(false, false, false), Flight(NoSweep, {}, 0, map[]), Hooks(false, 0, map[]), map[])
  }

  datatype Step =
    | BeginTrigger
    | Consider
    | Register
    | Launch(id: nat)
    | Collected(id: nat, ok: bool)
    | ClearBusy(id: nat)
    | WorkDone(id: nat)
    | AfterRefresh(id: nat, hook: nat)
    | HookReturns(hook: nat)
    | HookDone(hook: nat)
    | Pause
    | Resume
    | TakeWake
    | RequestStop
    | BeginStop(caller: nat)
    | WorkWaited(caller: nat)
    | AfterWaited(caller: nat)

  predicate InPhase(f: Flight, id: nat, phase: Phase) { id in f.workers && f.workers[id].phase == phase }

  /** Steps that need the mutex wait for the trigger that holds it. */
  predicate Free(s: State) { s.flight.sweep.NoSweep? }

  predicate FlightStep(e: Step) {
    e.BeginTrigger? || e.Consider? || e.Register? || e.Launch? || e.Collected? || e.ClearBusy? || e.WorkDone?
  }

  predicate FlightEnabled(f: Flight, e: Step)
    requires FlightStep(e)
  {
    match e
    case BeginTrigger => f.sweep.NoSweep?
    case Consider => f.sweep.At?
    case Register => f.sweep.Claimed?
    case Launch(id) => f.sweep.Counted? && id !in f.workers
    case Collected(id, _) => InPhase(f, id, Collecting)
    case ClearBusy(id) => InPhase(f, id, Leaving)
    case WorkDone(id) => InPhase(f, id, Releasing)
  }

  function Advance(f: Flight, id: nat, phase: Phase): Flight
    requires id in f.workers
  {
    f.(workers := f.workers[id := f.workers[id].(phase := phase)])
  }

  function NextFlight(slots: nat, open: bool, f: Flight, e: Step): Flight
    requires FlightStep(e) && FlightEnabled(f, e)
  {
    match e
    case BeginTrigger => if open then f.(sweep := At(0)) else f
    case Consider =>
      if f.sweep.i >= slots then f.(sweep := NoSweep)
      else if f.sweep.i in f.busy then f.(sweep := At(f.sweep.i + 1))
      else f.(busy := f.busy + {f.sweep.i}, sweep := Claimed(f.sweep.i))
    case Register => f.(work := f.work + 1, sweep := Counted(f.sweep.i))
    case Launch(id) => f.(workers := f.workers[id := Worker(f.sweep.i, Collecting)], sweep := At(f.sweep.i + 1))
    case Collected(id, ok) => Advance(f, id, if ok then Hooking else Leaving)
    case ClearBusy(id) => Advance(f, id, Releasing).(busy := f.busy - {f.workers[id].slot})
    case WorkDone(id) => f.(workers := f.workers - {id}, work := f.work - 1)
  }

  predicate HookStep(e: Step) { e.HookReturns? || e.HookDone? }

  predicate HookEnabled(h: Hooks, e: Step)
    requires HookStep(e)
  {
    e.hook in h.hooks && h.hooks[e.hook] == if e.HookReturns? then Running else Finished
  }

  function NextHooks(h: Hooks, e: Step): Hooks
    requires HookStep(e) && HookEnabled(h, e)
  {
    if e.HookReturns? then h.(busy := false, hooks := h.hooks[e.hook := Finished])
    else h.(hooks := h.hooks - {e.hook}, after := h.after - 1)
  }

  predicate GateStep(e: Step) { e.Pause? || e.Resume? || e.TakeWake? || e.RequestStop? }

  function NextGate(g: Gate, e: Step): Gate
    requires GateStep(e)
  {
    match e
    case Pause => g.(paused := true)
    case Resume => if g.stopped then g else g.(paused := false, wake := true)
    case TakeWake => g.(wake := false)
    case RequestStop => g.(stopped := true)
  }

  predicate Enabled(s: State, e: Step) {
    if FlightStep(e) then FlightEnabled(s.flight, e)
    else if HookStep(e) then HookEnabled(s.hooks, e)
    else if e.AfterRefresh? then InPhase(s.flight, e.id, Hooking) && e.hook !in s.hooks.hooks && (s.registered ==> Free(s))
    else if e.TakeWake? then s.gate.wake
    else if GateStep(e) then Free(s)
    else if e.BeginStop? then Free(s) && e.caller !in s.stoppers
    else
      && e.caller in s.stoppers
      && if e.WorkWaited? then s.stoppers[e.caller].WaitingWork? && s.flight.work == 0
         else s.stoppers[e.caller].WaitingAfter? && s.hooks.after == 0
  }

  function Next(s: State, e: Step): State
    requires Enabled(s, e)
  {
    if FlightStep(e) then s.(flight := NextFlight(s.slots, !s.gate.stopped && !s.gate.paused, s.flight, e))
    else if HookStep(e) then s.(hooks := NextHooks(s.hooks, e))
    else if e.AfterRefresh? then AfterRefreshed(s, e.id, e.hook)
    else if GateStep(e) then s.(gate := NextGate(s.gate, e))
    else if e.BeginStop? then s.(gate := s.gate.(stopped := true), stoppers := s.stoppers[e.caller := WaitingWork])
    else s.(stoppers := s.stoppers[e.caller := if e.WorkWaited? then WaitingAfter else Returned])
  }

  /** The hook is started unless the refresher is stopped or a hook is still busy. */
  function AfterRefreshed(s: State, id: nat, hook: nat): State
    requires id in s.flight.workers
  {
    var flight := Advance(s.flight, id, Leaving);
    if !s.registered || s.gate.stopped || s.hooks.busy then s.(flight := flight)
    else s.(flight := flight, hooks := Hooks(true, s.hooks.after + 1, s.hooks.hooks[hook := Running]))
  }

  // ---- the invariant ----

  /** The goroutine still holds its slot. */
  predicate Holds(f: Flight, id: nat) { id in f.workers && !f.workers[id].phase.Releasing? }

  predicate Launching(f: Flight, slot: nat) { f.sweep == Claimed(slot) || f.sweep == Counted(slot) }

  ghost predicate Held(f: Flight, slot: nat) { exists id :: Holds(f, id) && f.workers[id].slot == slot }

  /** At most one goroutine holds a slot, and `busy` says which slots are held or about to be. */
  ghost predicate SingleFlight(f: Flight) {
    && (forall a, b :: Holds(f, a) && Holds(f, b) && f.workers[a].slot == f.workers[b].slot ==> a == b)
    && (forall slot :: Held(f, slot) ==> slot in f.busy && !Launching(f, slot))
    && (forall slot :: slot in f.busy ==> Launching(f, slot) || Held(f, slot))
    && (forall slot :: Launching(f, slot) ==> slot in f.busy)
  }

  /** The work counter: the goroutines that have yet to call Done, and one being launched. */
  predicate WorkFits(f: Flight) { f.work == |f.workers| + (if f.sweep.Counted? then 1 else 0) }

  ghost predicate OneHook(h: Hooks) {
    && h.after == |h.hooks|
    && (forall a, b :: a in h.hooks && b in h.hooks && h.hooks[a].Running? && h.hooks[b].Running? ==> a == b)
    && (h.busy <==> exists a :: a in h.hooks && h.hooks[a].Running?)
  }

  /** A trigger under way was let in; a stop that has waited left nothing behind it. */
  ghost predicate Gated(s: State) {
    && (!Free(s) ==> !s.gate.paused && !s.gate.stopped)
    && (forall k :: k in s.stoppers ==> (
          && s.gate.stopped
          && (!s.stoppers[k].WaitingWork? ==> s.flight.workers == map[])
          && (s.stoppers[k].Returned? ==> s.hooks.hooks == map[])))
  }

  ghost predicate Inv(s: State) {
    SingleFlight(s.flight) && WorkFits(s.flight) && OneHook(s.hooks) && Gated(s)
  }

  // ---- the slots ----

  /** Two flights with the same holders, flags and launch. */
  ghost predicate SameFlight(f: Flight, g: Flight) {
    && g.busy == f.busy
    && (forall id :: Holds(g, id) <==> Holds(f, id))
    && (forall id :: Holds(f, id) ==> g.workers[id].slot == f.workers[id].slot)
    && (forall slot :: Launching(g, slot) <==> Launching(f, slot))
  }

  lemma SameFlightKeeps(f: Flight, g: Flight)
    requires SingleFlight(f) && SameFlight(f, g)
    ensures SingleFlight(g)
  {
    forall slot ensures Held(g, slot) <==> Held(f, slot) {
      if Held(f, slot) {
        var id :| Holds(f, id) && f.workers[id].slot == slot;
        assert Holds(g, id);
      }
      if Held(g, slot) {
        var id :| Holds(g, id) && g.workers[id].slot == slot;
        assert Holds(f, id);
      }
    }
  }

  lemma ClaimKeeps(f: Flight, g: Flight, i: nat)
    requires SingleFlight(f) && f.sweep == At(i) && i !in f.busy
    requires g == f.(busy := f.busy + {i}, sweep := Claimed(i))
    ensures SingleFlight(g)
  {
    assert !Held(f, i);
    forall slot ensures Held(g, slot) <==> Held(f, slot) {
      if Held(f, slot) {
        var id :| Holds(f, id) && f.workers[id].slot == slot;
        assert Holds(g, id);
      }
      if Held(g, slot) {
        var id :| Holds(g, id) && g.workers[id].slot == slot;
        assert Holds(f, id);
      }
    }
  }

  lemma LaunchKeeps(f: Flight, g: Flight, i: nat, id: nat)
    requires SingleFlight(f) && f.sweep == Counted(i) && id !in f.workers
    requires g == f.(workers := f.workers[id := Worker(i, Collecting)], sweep := At(i + 1))
    ensures SingleFlight(g)
  {
    assert Launching(f, i);
    assert !Held(f, i);
    assert Holds(g, id) && g.workers[id].slot == i;
    forall a | Holds(g, a) && a != id ensures Holds(f, a) && g.workers[a] == f.workers[a] && g.workers[a].slot != i {
    }
    forall slot ensures Held(g, slot) <==> Held(f, slot) || slot == i {
      if Held(f, slot) {
        var a :| Holds(f, a) && f.workers[a].slot == slot;
        assert Holds(g, a);
      }
    }
  }

  lemma ClearKeeps(f: Flight, g: Flight, i: nat, id: nat)
    requires SingleFlight(f) && Holds(f, id) && f.workers[id].slot == i
    requires g == Advance(f, id, Releasing).(busy := f.busy - {i})
    ensures SingleFlight(g)
  {
    assert Held(f, i);
    forall a | Holds(g, a) ensures a != id && Holds(f, a) && g.workers[a] == f.workers[a] && g.workers[a].slot != i {
    }
    forall slot ensures Held(g, slot) <==> Held(f, slot) && slot != i {
      if Held(f, slot) && slot != i {
        var a :| Holds(f, a) && f.workers[a].slot == slot;
        assert Holds(g, a);
      }
    }
  }

  lemma OtherStepsFly(slots: nat, open: bool, f: Flight, e: Step)
    requires FlightStep(e) && FlightEnabled(f, e) && !e.Launch? && !e.ClearBusy?
    requires e.Consider? ==> f.sweep.i >= slots || f.sweep.i in f.busy
    ensures SameFlight(f, NextFlight(slots, open, f, e))
  {
  }

  lemma SingleFlightStep(slots: nat, open: bool, f: Flight, e: Step)
    requires SingleFlight(f) && FlightStep(e) && FlightEnabled(f, e)
    ensures SingleFlight(NextFlight(slots, open, f, e))
  {
    hide SingleFlight, SameFlight, Launching;
    var g := NextFlight(slots, open, f, e);
    if e.Consider? && f.sweep.i < slots && f.sweep.i !in f.busy {
      ClaimKeeps(f, g, f.sweep.i);
    } else if e.Launch? {
      LaunchKeeps(f, g, f.sweep.i, e.id);
    } else if e.ClearBusy? {
      ClearKeeps(f, g, f.workers[e.id].slot, e.id);
    } else {
      OtherStepsFly(slots, open, f, e);
      SameFlightKeeps(f, g);
    }
  }

  lemma Sizes<V>(m: map<nat, V>, k: nat, v: V)
    ensures |m[k := v]| == if k in m then |m| else |m| + 1
    ensures k in m ==> |m - {k}| == |m| - 1
  {
    if k in m {
      assert m[k := v].Keys == m.Keys;
      assert (m - {k}).Keys == m.Keys - {k};
    }
  }

  lemma WorkStep(slots: nat, open: bool, f: Flight, e: Step)
    requires WorkFits(f) && FlightStep(e) && FlightEnabled(f, e)
    ensures WorkFits(NextFlight(slots, open, f, e))
  {
    match e
    case Launch(id) => Sizes(f.workers, id, Worker(f.sweep.i, Collecting));
    case Collected(id, ok) => Sizes(f.workers, id, f.workers[id].(phase := if ok then Hooking else Leaving));
    case ClearBusy(id) => Sizes(f.workers, id, f.workers[id].(phase := Releasing));
    case WorkDone(id) => Sizes(f.workers, id, f.workers[id]);
    case _ =>
  }

  lemma AdvanceKeeps(f: Flight, id: nat)
    requires SingleFlight(f) && WorkFits(f) && InPhase(f, id, Hooking)
    ensures SingleFlight(Advance(f, id, Leaving)) && WorkFits(Advance(f, id, Leaving))
  {
    Sizes(f.workers, id, f.workers[id].(phase := Leaving));
    SameFlightKeeps(f, Advance(f, id, Leaving));
  }

  // ---- the hook ----

  lemma HooksStep(h: Hooks, e: Step)
    requires OneHook(h) && HookStep(e) && HookEnabled(h, e)
    ensures OneHook(NextHooks(h, e))
  {
    var t := NextHooks(h, e);
    Sizes(h.hooks, e.hook, Finished);
    if e.HookDone? && h.busy {
      var a :| a in h.hooks && h.hooks[a].Running?;
      assert a in t.hooks;
    }
  }

  lemma HookStarts(h: Hooks, hook: nat)
    requires OneHook(h) && !h.busy && hook !in h.hooks
    ensures OneHook(Hooks(true, h.after + 1, h.hooks[hook := Running]))
  {
    Sizes(h.hooks, hook, Running);
    assert h.hooks[hook := Running][hook].Running?;
  }

  // ---- the whole ----

  lemma GatedStep(s: State, e: Step)
    requires Gated(s) && WorkFits(s.flight) && s.hooks.after == |s.hooks.hooks| && Enabled(s, e)
    ensures Gated(Next(s, e))
  {
    if e.WorkWaited? {
      assert |s.flight.workers| == 0;
    } else if e.AfterWaited? {
      assert |s.hooks.hooks| == 0;
    }
  }

  lemma InvStep(s: State, e: Step)
    requires Inv(s) && Enabled(s, e)
    ensures Inv(Next(s, e))
  {
    hide SingleFlight, WorkFits;
    var open := !s.gate.stopped && !s.gate.paused;
    GatedStep(s, e);
    if FlightStep(e) {
      SingleFlightStep(s.slots, open, s.flight, e);
      WorkStep(s.slots, open, s.flight, e);
    } else if HookStep(e) {
      HooksStep(s.hooks, e);
    } else if e.AfterRefresh? {
      AdvanceKeeps(s.flight, e.id);
      if !s.hooks.busy { HookStarts(s.hooks, e.hook); }
    }
    hide OneHook, Gated, NextFlight, NextHooks, Advance;
  }

  // ---- runs ----

  ghost predicate Path(s: State, es: seq<Step>)
    decreases |es|
  {
    es == [] || (Enabled(s, es[0]) && Path(Next(s, es[0]), es[1..]))
  }

  ghost function After(s: State, es: seq<Step>): State
    requires Path(s, es)
    decreases |es|
  {
    if es == [] then s else After(Next(s, es[0]), es[1..])
  }

  lemma {:induction false} InvPath(s: State, es: seq<Step>)
    requires Inv(s) && Path(s, es)
    ensures Inv(After(s, es))
    decreases |es|
  {
    hide Inv, Enabled, Next;
    if es != [] {
      InvStep(s, es[0]);
      InvPath(Next(s, es[0]), es[1..]);
    }
  }

  lemma StartsWell(slots: nat, registered: bool)
    ensures Inv(Initial(slots, registered))
  {
  }

  /** Goroutines that run a slot's body. */
  ghost function Bodies(s: State, slot: nat): set<nat> {
    set id | id in s.flight.workers && s.flight.workers[id].slot == slot && s.flight.workers[id].phase.Collecting?
  }

  ghost function RunningHooks(s: State): set<nat> { set h | h in s.hooks.hooks && s.hooks.hooks[h].Running? }

  /** Nothing is in flight and nothing is being launched. */
  ghost predicate Quiet(s: State) {
    s.flight.workers == map[] && s.hooks.hooks == map[] && Free(s) && s.gate.stopped
  }

  ghost predicate HasReturned(s: State, caller: nat) { caller in s.stoppers && s.stoppers[caller].Returned? }

  lemma AtMostOne(xs: set<nat>)
    requires forall a, b :: a in xs && b in xs ==> a == b
    ensures |xs| <= 1
  {
    if xs != {} {
      var x :| x in xs;
      assert xs == {x};
    }
  }

  lemma InvSays(s: State, slot: nat, caller: nat)
    requires Inv(s)
    ensures |Bodies(s, slot)| <= 1 && |RunningHooks(s)| <= 1
    ensures WorkFits(s.flight) && s.hooks.after == |s.hooks.hooks|
    ensures HasReturned(s, caller) ==> Quiet(s)
  {
    forall a, b | a in Bodies(s, slot) && b in Bodies(s, slot) ensures a == b {
      assert Holds(s.flight, a) && Holds(s.flight, b);
    }
    AtMostOne(Bodies(s, slot));
    AtMostOne(RunningHooks(s));
  }

  /**
   * Over every interleaving: a slot's body runs at most once at a time and so does the after-hook;
   * the work counter is the number of goroutines that run or are about to call Done, and one more
   * while a trigger is between Add and go; and when Stop has returned nothing is in flight.
   */
  lemma ProtocolHolds(slots: nat, registered: bool, es: seq<Step>, slot: nat, caller: nat)
    requires Path(Initial(slots, registered), es)
    ensures var s := After(Initial(slots, registered), es);
            && |Bodies(s, slot)| <= 1 && |RunningHooks(s)| <= 1
            && WorkFits(s.flight) && s.hooks.after == |s.hooks.hooks|
            && (HasReturned(s, caller) ==> Quiet(s))
  {
    StartsWell(slots, registered);
    hide *;
    InvPath(Initial(slots, registered), es);
    InvSays(After(Initial(slots, registered), es), slot, caller);
  }

  /**
   * A goroutine is launched only while neither paused nor stopped, and no counter is raised once
   * somebody may be waiting for it to fall.
   */
  lemma LaunchesAreAllowed(s: State, e: Step)
    requires Gated(s) && Enabled(s, e)
    ensures e.Launch? ==> !s.gate.paused && !s.gate.stopped
    ensures !e.Launch? ==> Next(s, e).flight.workers.Keys <= s.flight.workers.Keys
    ensures Next(s, e).flight.work > s.flight.work || Next(s, e).hooks.after > s.hooks.after ==>
              !s.gate.stopped && s.stoppers.Keys == {}
  {
    if s.stoppers.Keys != {} {
      var k :| k in s.stoppers;
      assert s.gate.stopped;
    }
  }

  /** Stop is for good: once it has returned to some caller nothing is ever in flight again. */
  lemma {:induction false} QuietForever(s: State, es: seq<Step>, caller: nat)
    requires Inv(s) && Path(s, es) && HasReturned(s, caller)
    ensures Quiet(After(s, es)) && HasReturned(After(s, es), caller)
    decreases |es|
  {
    if es == [] {
      InvSays(s, 0, caller);
    } else {
      InvStep(s, es[0]);
      ReturnedStays(s, es[0], caller);
      hide Inv, Enabled, Next, Quiet, HasReturned;
      QuietForever(Next(s, es[0]), es[1..], caller);
    }
  }

  lemma ReturnedStays(s: State, e: Step, caller: nat)
    requires Enabled(s, e) && HasReturned(s, caller)
    ensures HasReturned(Next(s, e), caller)
  {
  }

  // ---- a requested stop ends ----

  /** What goroutines, hooks and the callers of Stop do; the rest is up to the user. */
  predicate Progress(e: Step) {
    || e.Collected? || e.AfterRefresh? || e.ClearBusy? || e.WorkDone?
    || HookStep(e) || e.WorkWaited? || e.AfterWaited?
  }

  function Left(p: Phase): nat {
    match p case Collecting => 4 case Hooking => 3 case Leaving => 2 case Releasing => 1
  }

  /** The goroutines with at least `n` steps to go. */
  function WorkersLeft(f: Flight, n: nat): set<nat> {
    set id | id in f.workers && Left(f.workers[id].phase) >= n
  }

  function HooksLeft(h: Hooks, n: nat): set<nat> {
    set k | k in h.hooks && (if h.hooks[k].Running? then 2 else 1) >= n
  }

  function StoppersLeft(stoppers: map<nat, StopPhase>, n: nat): set<nat> {
    set k | k in stoppers && (match stoppers[k] case WaitingWork => 2 case WaitingAfter => 1 case Returned => 0) >= n
  }

  function FlightMeasure(f: Flight): nat {
    |WorkersLeft(f, 1)| + |WorkersLeft(f, 2)| + |WorkersLeft(f, 3)| + |WorkersLeft(f, 4)|
  }

  function HookMeasure(h: Hooks): nat { |HooksLeft(h, 1)| + |HooksLeft(h, 2)| }

  function StopMeasure(stoppers: map<nat, StopPhase>): nat { |StoppersLeft(stoppers, 1)| + |StoppersLeft(stoppers, 2)| }

  function Measure(s: State): nat { FlightMeasure(s.flight) + HookMeasure(s.hooks) + StopMeasure(s.stoppers) }

  /** A set that loses an element, or nothing. */
  lemma Shrinks(a: set<nat>, b: set<nat>, x: nat)
    requires b == a - {x}
    ensures |b| == if x in a then |a| - 1 else |a|
  {
  }

  lemma WorkerMoves(f: Flight, g: Flight, id: nat)
    requires id in f.workers
    requires g.workers == f.workers - {id}
             || (exists phase :: g.workers == f.workers[id := f.workers[id].(phase := phase)]
                                 && Left(phase) < Left(f.workers[id].phase))
    requires id !in g.workers ==> f.workers[id].phase.Releasing?
    ensures FlightMeasure(g) < FlightMeasure(f)
  {
    var was := Left(f.workers[id].phase);
    var now := if id in g.workers then Left(g.workers[id].phase) else 0;
    forall n: nat | 1 <= n <= 4
      ensures |WorkersLeft(g, n)| == |WorkersLeft(f, n)| - (if now < n <= was then 1 else 0)
    {
      if now < n <= was {
        Shrinks(WorkersLeft(f, n), WorkersLeft(g, n), id);
      } else {
        assert WorkersLeft(g, n) == WorkersLeft(f, n);
      }
    }
  }

  lemma HookMoves(h: Hooks, e: Step)
    requires HookStep(e) && HookEnabled(h, e)
    ensures HookMeasure(NextHooks(h, e)) < HookMeasure(h)
  {
    var g := NextHooks(h, e);
    if e.HookReturns? {
      assert HooksLeft(g, 1) == HooksLeft(h, 1);
      Shrinks(HooksLeft(h, 2), HooksLeft(g, 2), e.hook);
    } else {
      Shrinks(HooksLeft(h, 1), HooksLeft(g, 1), e.hook);
      assert HooksLeft(g, 2) == HooksLeft(h, 2);
    }
  }

  lemma StopperMoves(stoppers: map<nat, StopPhase>, k: nat, phase: StopPhase)
    requires k in stoppers
    requires (stoppers[k].WaitingWork? && phase.WaitingAfter?) || (stoppers[k].WaitingAfter? && phase.Returned?)
    ensures StopMeasure(stoppers[k := phase]) < StopMeasure(stoppers)
  {
    var t := stoppers[k := phase];
    if phase.WaitingAfter? {
      assert StoppersLeft(t, 1) == StoppersLeft(stoppers, 1);
      Shrinks(StoppersLeft(stoppers, 2), StoppersLeft(t, 2), k);
    } else {
      Shrinks(StoppersLeft(stoppers, 1), StoppersLeft(t, 1), k);
      assert StoppersLeft(t, 2) == StoppersLeft(stoppers, 2);
    }
  }

  /** After a stop request every step of a goroutine, a hook or a stop brings the end nearer. */
  lemma ProgressDescends(s: State, e: Step)
    requires s.gate.stopped && Progress(e) && Enabled(s, e)
    ensures Measure(Next(s, e)) < Measure(s) && Next(s, e).gate.stopped
  {
    hide FlightMeasure, HookMeasure, StopMeasure;
    var t := Next(s, e);
    if e.Collected? || e.AfterRefresh? || e.ClearBusy? {
      assert t.flight.workers == s.flight.workers[e.id := s.flight.workers[e.id].(phase := t.flight.workers[e.id].phase)];
      WorkerMoves(s.flight, t.flight, e.id);
    } else if e.WorkDone? {
      WorkerMoves(s.flight, t.flight, e.id);
    } else if HookStep(e) {
      HookMoves(s.hooks, e);
    } else {
      StopperMoves(s.stoppers, e.caller, t.stoppers[e.caller]);
    }
  }

  lemma {:induction false} Fresh(keys: set<nat>) returns (n: nat)
    ensures forall k :: k in keys ==> k < n
    decreases |keys|
  {
    if keys == {} {
      n := 0;
    } else {
      var k :| k in keys;
      var m := Fresh(keys - {k});
      n := if m > k then m else k + 1;
      assert forall j :: j in keys ==> j == k || j in keys - {k};
    }
  }

  /** As long as a stop has not returned somebody can take such a step. */
  lemma SomebodyMoves(s: State, caller: nat) returns (e: Step)
    requires Inv(s) && caller in s.stoppers && !s.stoppers[caller].Returned?
    ensures s.gate.stopped && Progress(e) && Enabled(s, e)
  {
    hide SingleFlight, OneHook;
    assert s.gate.stopped && Free(s);
    if id :| id in s.flight.workers {
      var unused := Fresh(s.hooks.hooks.Keys);
      e := match s.flight.workers[id].phase
           case Collecting => Collected(id, false)
           case Hooking => AfterRefresh(id, unused)
           case Leaving => ClearBusy(id)
           case Releasing => WorkDone(id);
    } else {
      assert s.flight.workers.Keys == {} && |s.flight.workers| == 0;
      if s.stoppers[caller].WaitingWork? {
        e := WorkWaited(caller);
      } else if h :| h in s.hooks.hooks {
        e := if s.hooks.hooks[h].Running? then HookReturns(h) else HookDone(h);
      } else {
        assert |s.hooks.hooks| == 0;
        NoHooksCounted(s);
        e := AfterWaited(caller);
      }
    }
  }

  lemma NoHooksCounted(s: State)
    requires Inv(s) && |s.hooks.hooks| == 0
    ensures s.hooks.after == 0
  {
  }

  /** The steps of goroutines, hooks and waiting callers in a run. */
  function ProgressSteps(es: seq<Step>): nat {
    if es == [] then 0 else (if Progress(es[0]) then 1 else 0) + ProgressSteps(es[1..])
  }

  /** The calls of Stop that begin in it. */
  function StopCalls(es: seq<Step>): nat {
    if es == [] then 0 else (if es[0].BeginStop? then 1 else 0) + StopCalls(es[1..])
  }

  /** Whatever the user calls once the refresher is stopped brings in no work; a further Stop has two waits before it. */
  lemma UserStepMeasure(s: State, e: Step)
    requires Gated(s) && s.gate.stopped && Enabled(s, e) && !Progress(e)
    ensures Next(s, e).gate.stopped
    ensures Measure(Next(s, e)) == Measure(s) + if e.BeginStop? then 2 else 0
  {
    hide FlightMeasure, HookMeasure, StopMeasure;
    assert Next(s, e).flight == s.flight && Next(s, e).hooks == s.hooks;
    if e.BeginStop? { StopperJoins(s.stoppers, e.caller); }
  }

  lemma StopperJoins(stoppers: map<nat, StopPhase>, k: nat)
    requires k !in stoppers
    ensures StopMeasure(stoppers[k := WaitingWork]) == StopMeasure(stoppers) + 2
  {
    StoppersLeftJoins(stoppers, k, 1);
    StoppersLeftJoins(stoppers, k, 2);
    hide StoppersLeft;
  }

  lemma StoppersLeftJoins(stoppers: map<nat, StopPhase>, k: nat, n: nat)
    requires k !in stoppers && 1 <= n <= 2
    ensures |StoppersLeft(stoppers[k := WaitingWork], n)| == |StoppersLeft(stoppers, n)| + 1
  {
    var was, now := StoppersLeft(stoppers, n), StoppersLeft(stoppers[k := WaitingWork], n);
    forall j ensures j in was <==> j in now && j != k {
    }
    assert k in now;
    hide StoppersLeft;
    Shrinks(now, was, k);
  }

  /**
   * Once a stop was requested, and whatever the user calls after it, the threads make no more than
   * Measure steps, and two more for every further caller of Stop.
   */
  lemma {:induction false} StoppingIsBounded(s: State, es: seq<Step>)
    requires Inv(s) && s.gate.stopped && Path(s, es)
    ensures ProgressSteps(es) <= Measure(s) + 2 * StopCalls(es)
    decreases |es|
  {
    if es != [] {
      InvStep(s, es[0]);
      if Progress(es[0]) { ProgressDescends(s, es[0]); } else { UserStepMeasure(s, es[0]); }
      hide Measure, Enabled, Next, Inv;
      StoppingIsBounded(Next(s, es[0]), es[1..]);
    }
  }

  /** And Stop can always be brought to return. */
  lemma {:induction false} StopReturns(s: State, caller: nat) returns (es: seq<Step>)
    requires Inv(s) && caller in s.stoppers
    ensures Path(s, es) && HasReturned(After(s, es), caller)
    decreases Measure(s)
  {
    if HasReturned(s, caller) {
      es := [];
    } else {
      var e := SomebodyMoves(s, caller);
      InvStep(s, e);
      ProgressDescends(s, e);
      StopperStays(s, e, caller);
      hide Inv, Enabled, Next, Measure;
      var rest := StopReturns(Next(s, e), caller);
      es := [e] + rest;
      assert es[1..] == rest;
    }
  }

  lemma StopperStays(s: State, e: Step, caller: nat)
    requires Enabled(s, e) && caller in s.stoppers
    ensures caller in Next(s, e).stoppers
  {
  }

  // ---- the methods ----

  lemma {:induction false} PathJoin(s: State, es: seq<Step>, e: Step)
    requires Path(s, es) && Enabled(After(s, es), e)
    ensures Path(s, es + [e]) && After(s, es + [e]) == Next(After(s, es), e)
    decreases |es|
  {
    hide Enabled, Next;
    if es == [] {
      assert es + [e] == [e] && [e][1..] == [];
    } else {
      PathJoin(Next(s, es[0]), es[1..], e);
      assert (es + [e])[1..] == es[1..] + [e];
    }
  }

  /** The first `n` slots that were idle have one new goroutine each, and nobody else has. */
  ghost predicate Launched(was: Flight, now: map<nat, Worker>, n: nat) {
    && (forall id :: id in was.workers ==> id in now && now[id] == was.workers[id])
    && (forall id :: id in now && id !in was.workers ==>
          now[id].phase.Collecting? && now[id].slot !in was.busy && now[id].slot < n)
    && (forall slot: nat :: slot < n && slot !in was.busy ==> New(was, now, slot))
  }

  ghost predicate New(was: Flight, now: map<nat, Worker>, slot: nat) {
    exists id :: id in now && id !in was.workers && now[id] == Worker(slot, Collecting)
  }

  lemma LaunchedNone(was: Flight)
    ensures Launched(was, was.workers, 0)
  {
  }

  lemma LaunchedNext(was: Flight, now: map<nat, Worker>, n: nat, id: nat)
    requires Launched(was, now, n)
    ensures n in was.busy ==> Launched(was, now, n + 1)
    ensures n !in was.busy && id !in now && id !in was.workers ==>
              Launched(was, now[id := Worker(n, Collecting)], n + 1)
  {
    if n !in was.busy && id !in now && id !in was.workers {
      var after := now[id := Worker(n, Collecting)];
      assert after[id] == Worker(n, Collecting);
      forall slot: nat | slot < n + 1 && slot !in was.busy ensures New(was, after, slot) {
        if slot < n {
          assert New(was, now, slot);
          var k :| k in now && k !in was.workers && now[k] == Worker(slot, Collecting);
          assert k in after && after[k] == Worker(slot, Collecting);
        }
      }
    }
  }

  /** What one thread does to the shared state while no other thread moves. */
  class Refresher {
    var state: State
    ghost var start: State
    ghost var trace: seq<Step>

    /** What was done since `start` is a run of the transition system. */
    ghost predicate Valid()
      reads this
    {
      Path(start, trace) && After(start, trace) == state && Inv(state)
    }

    constructor (slots: nat, registered: bool)
      ensures Valid() && state == Initial(slots, registered)
    {
      StartsWell(slots, registered);
      state, start, trace := Initial(slots, registered), Initial(slots, registered), [];
    }

    method Do(e: Step)
      requires Valid() && Enabled(state, e)
      modifies this
      ensures Valid() && start == old(start) && trace == old(trace) + [e] && state == Next(old(state), e)
    {
      hide Path, After, Inv, Enabled, Next;
      InvStep(state, e);
      PathJoin(start, trace, e);
      state, trace := Next(state, e), trace + [e];
    }

    /**
     * Launches one goroutine for every idle slot, and for no other, unless paused or stopped;
     * `base` is above every goroutine's number.
     */
    method TriggerIdle(base: nat) returns (next: nat)
      requires Valid() && Free(state) && forall id :: id in state.flight.workers ==> id < base
      modifies this
      ensures Valid() && start == old(start) && Free(state)
      ensures state == old(state).(flight := state.flight)
      ensures old(state.gate.paused || state.gate.stopped) ==> state == old(state) && next == base
      ensures !old(state.gate.paused || state.gate.stopped) ==>
                Launched(old(state.flight), state.flight.workers, state.slots)
                && forall slot: nat :: slot in state.flight.busy <==> slot in old(state.flight.busy) || slot < state.slots
    {
      hide Path, After, Inv, Launched;
      next := base;
      assert Launched(state.flight, state.flight.workers, 0) by { LaunchedNone(state.flight); }
      Do(BeginTrigger);
      if state.flight.sweep.NoSweep? { return; }
      var i: nat := 0;
      while i < state.slots
        invariant Valid() && start == old(start) && state.flight.sweep == At(i) && i <= state.slots
        invariant state == old(state).(flight := state.flight)
        invariant base <= next && forall id :: id in state.flight.workers ==> id < next
        invariant forall slot: nat :: slot in state.flight.busy <==> slot in old(state.flight.busy) || slot < i
        invariant Launched(old(state.flight), state.flight.workers, i)
        decreases state.slots - i
      {
        LaunchedNext(old(state.flight), state.flight.workers, i, next);
        Do(Consider);
        if state.flight.sweep.Claimed? {
          Do(Register);
          Do(Launch(next));
          next := next + 1;
        }
        i := i + 1;
      }
      Do(Consider);
    }

    /** A finished collection starts the hook unless stopped or one is still busy. */
    method RunAfterRefreshAsync(id: nat, hook: nat)
      requires Valid() && Enabled(state, AfterRefresh(id, hook))
      modifies this
      ensures Valid() && start == old(start)
      ensures hook in state.hooks.hooks <==>
                old(state.registered && !state.gate.stopped && forall h :: h in state.hooks.hooks ==> state.hooks.hooks[h].Finished?)
    {
      assert state.hooks.busy <==> exists h :: h in state.hooks.hooks && state.hooks.hooks[h].Running?;
      hide Path, After, Inv;
      Do(AfterRefresh(id, hook));
    }

    method PauseRefresh()
      requires Valid() && Free(state)
      modifies this
      ensures Valid() && start == old(start) && state == old(state).(gate := old(state).gate.(paused := true))
    {
      hide Path, After, Inv;
      Do(Pause);
    }

    /** Launches are allowed again and one pass is asked for, unless stopped. */
    method ResumeRefresh()
      requires Valid() && Free(state)
      modifies this
      ensures Valid() && start == old(start)
      ensures if old(state.gate.stopped) then state == old(state)
              else state == old(state).(gate := old(state).gate.(paused := false, wake := true))
    {
      hide Path, After, Inv;
      Do(Resume);
    }
  }
}
