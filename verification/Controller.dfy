/** The closed-loop worker controller (internal/gsbench/controller.go). */
module Controller {
  import opened Common
  import opened Sorting

  datatype Sample = Sample(value: real, available: bool, errors: int, failed: bool)

  datatype Config = Config(
    target: real, tolerance: real, minWorkers: int, maxWorkers: int,
    step: int, explorationStep: int, settledStep: int,
    requiredSamples: int, requiredAdjustmentSamples: int, requiredSettlingSamples: int,
    adjustmentCooldownSamples: int, maxSamples: int
  )

  function Normalized(cfg: Config): (n: Config)
    ensures Normal(n)
  {
    var lo := if cfg.minWorkers <= 0 then 1 else cfg.minWorkers;
    var hi := if cfg.maxWorkers < lo then lo else cfg.maxWorkers;
    var required := if cfg.requiredSamples <= 0 then 3 else cfg.requiredSamples;
    cfg.(
      minWorkers := lo, maxWorkers := hi, requiredSamples := required,
      step := if cfg.step <= 0 then Max(1, (hi - lo + 9) / 10) else cfg.step,
      requiredAdjustmentSamples := if cfg.requiredAdjustmentSamples <= 0 then 1 else cfg.requiredAdjustmentSamples,
      requiredSettlingSamples := if cfg.requiredSettlingSamples <= 0 then 1 else cfg.requiredSettlingSamples,
      maxSamples := if cfg.maxSamples <= 0 then Max(required, hi * 4) else cfg.maxSamples,
      tolerance := if cfg.tolerance <= 0.0 then 2.0 else cfg.tolerance)
  }

  predicate Normal(cfg: Config) {
    && 1 <= cfg.minWorkers <= cfg.maxWorkers && cfg.step >= 1 && cfg.requiredSamples >= 1
    && cfg.requiredAdjustmentSamples >= 1 && cfg.requiredSettlingSamples >= 1 && cfg.maxSamples >= 1
    && cfg.tolerance > 0.0
  }

  function Abs(x: real): real { if x < 0.0 then -x else x }

  function Ceil(x: real): int { -(-x).Floor }

  function RampAdjustment(cfg: Config, sample: Sample, current: int): (n: int)
    ensures n >= 1
  {
    var step := Max(1, cfg.step);
    if !sample.available || cfg.target <= 0.0 || sample.value <= 0.0 then
      Max(1, Min(step, if cfg.explorationStep <= 0 then step else cfg.explorationStep))
    else
      var deviation := Abs(cfg.target - sample.value) / cfg.target;
      var base := Min(step, Max(1, current));
      Max(1, Min(step, Ceil(base as real * deviation)))
  }

  function Ascending(a: real, b: real): bool { a <= b }

  function Median(values: seq<real>): real {
    var ordered := Sort(Ascending, values);
    var middle := |values| / 2;
    if |ordered| != |values| || values == [] then 0.0
    else if |values| % 2 == 1 then ordered[middle]
    else (ordered[middle - 1] + ordered[middle]) / 2.0
  }

  predicate InTolerance(cfg: Config, value: real) { Abs(value - cfg.target) <= cfg.tolerance }

  // ---- one observation, as a function of the loop's variables ----

  /** The loop's variables; `lower` and `upper` are the bracket, when known. */
  datatype Control = Control(
    inBand: nat, ceilingSamples: nat, lower: Option<int>, upper: Option<int>,
    settled: bool, settledValues: seq<real>, bandObservations: nat, cooldown: int,
    pendingDirection: int, pendingSamples: nat
  )

  const INITIAL: Control := Control(0, 0, None, None, false, [], 0, 0, 0, 0)

  datatype Decision = Keep | Move(next: int) | AtCeiling | InTarget

  function Reset(c: Control): Control { c.(pendingDirection := 0, pendingSamples := 0) }

  /** Counts one more sample that asks for a move in `direction`; a move needs enough in a row. */
  function Counted(c: Control, direction: int): nat {
    if direction != c.pendingDirection then 1 else c.pendingSamples + 1
  }

  predicate Confirmed(cfg: Config, c: Control, direction: int) {
    Counted(c, direction) >= cfg.requiredAdjustmentSamples
  }

  function AfterConfirm(cfg: Config, c: Control, direction: int): Control {
    if Confirmed(cfg, c, direction) then Reset(c)
    else c.(pendingDirection := direction, pendingSamples := Counted(c, direction))
  }

  function CountCeiling(cfg: Config, c: Control): (Control, Decision) {
    (Reset(c).(ceilingSamples := c.ceilingSamples + 1),
     if c.ceilingSamples + 1 >= cfg.requiredSamples then AtCeiling else Keep)
  }

  function Unavailable(cfg: Config, c: Control, current: int, s: Sample): (Control, Decision) {
    var d := c.(inBand := 0, bandObservations := 0, settledValues := []);
    if current >= cfg.maxWorkers then CountCeiling(cfg, d)
    else (Reset(d).(ceilingSamples := 0), Move(Min(cfg.maxWorkers, current + RampAdjustment(cfg, s, current))))
  }

  function WithinBand(cfg: Config, c: Control, s: Sample): (Control, Decision) {
    var d := Reset(c).(inBand := c.inBand + 1, ceilingSamples := 0);
    var e := if cfg.settledStep <= 0 || d.settled then d
             else if d.bandObservations + 1 < cfg.requiredSettlingSamples then
               d.(bandObservations := d.bandObservations + 1)
             else d.(bandObservations := d.bandObservations + 1, settled := true, settledValues := [s.value],
                     lower := None, upper := None);
    (e, if e.inBand >= cfg.requiredSamples then InTarget else Keep)
  }

  function LowSettled(cfg: Config, c: Control, current: int, s: Sample, coolingDown: bool): (Control, Decision) {
    if coolingDown then (Reset(c).(ceilingSamples := 0), Keep)
    else if current >= cfg.maxWorkers then CountCeiling(cfg, c)
    else if !Confirmed(cfg, c, 1) then (AfterConfirm(cfg, c, 1), Keep)
    else
      var adjustment := Min(cfg.settledStep, RampAdjustment(cfg, s, current));
      (AfterConfirm(cfg, c, 1).(ceilingSamples := 0, cooldown := cfg.adjustmentCooldownSamples),
       Move(Min(cfg.maxWorkers, current + Max(1, adjustment))))
  }

  /** A low sample at `current`: an upper end below it is dropped, the lower end rises to it. */
  function RaisedBracket(c: Control, current: int): Control {
    c.(upper := if c.upper.Some? && current > c.upper.value then None else c.upper,
       lower := if c.lower.None? || current > c.lower.value then Some(current) else c.lower)
  }

  function LowSearching(cfg: Config, c: Control, current: int, s: Sample): (Control, Decision) {
    var d := RaisedBracket(c, current);
    var sameUpper := c.upper == Some(current);
    if current >= cfg.maxWorkers then CountCeiling(cfg, d)
    else if !Confirmed(cfg, d, 1) then (AfterConfirm(cfg, d, 1), Keep)
    else
      var e := AfterConfirm(cfg, d, 1).(ceilingSamples := 0, bandObservations := 0);
      if d.upper.Some? && d.upper.value > current then
        (e, Move(current + Max(1, (d.upper.value - current) / 2)))
      else
        var adjustment := RampAdjustment(cfg, s, current);
        var explored := if !sameUpper && cfg.explorationStep > 0
                        then Max(adjustment, Min(cfg.step, cfg.explorationStep)) else adjustment;
        (if sameUpper then e.(upper := None) else e, Move(Min(cfg.maxWorkers, current + explored)))
  }

  function HighSettled(cfg: Config, c: Control, current: int, s: Sample, coolingDown: bool): (Control, Decision) {
    var d := c.(ceilingSamples := 0);
    if coolingDown then (Reset(d), Keep)
    else if !Confirmed(cfg, d, -1) then (AfterConfirm(cfg, d, -1), Keep)
    else
      var adjustment := Min(cfg.settledStep, RampAdjustment(cfg, s, current));
      (AfterConfirm(cfg, d, -1).(cooldown := cfg.adjustmentCooldownSamples),
       Move(Max(cfg.minWorkers, current - Max(1, adjustment))))
  }

  /** A high sample at `current`: a lower end above it is dropped, the upper end falls to it. */
  function LoweredBracket(c: Control, current: int): Control {
    c.(lower := if c.lower.Some? && current < c.lower.value then None else c.lower,
       upper := if c.upper.None? || current < c.upper.value then Some(current) else c.upper)
  }

  function HighSearching(cfg: Config, c: Control, current: int, s: Sample): (Control, Decision) {
    var d := LoweredBracket(c, current).(ceilingSamples := 0);
    var sameLower := c.lower == Some(current);
    if !Confirmed(cfg, d, -1) then (AfterConfirm(cfg, d, -1), Keep)
    else
      var e := AfterConfirm(cfg, d, -1).(bandObservations := 0);
      if d.lower.Some? && d.lower.value < current then
        (e, Move(d.lower.value + (current - d.lower.value) / 2))
      else if sameLower then
        (e.(lower := None), Move(Max(cfg.minWorkers, current - RampAdjustment(cfg, s, current))))
      else
        (e, Move(Max(cfg.minWorkers, current / 2)))
  }

  /** The last three values, the newest included. */
  function Remembered(values: seq<real>, value: real): seq<real> {
    var all := values + [value];
    if |all| > 3 then all[|all| - 3..] else all
  }

  function ControlValue(c: Control, s: Sample): real {
    if c.settled then Median(Remembered(c.settledValues, s.value)) else s.value
  }

  /** The variables and the decision after one sample without error. */
  function Observed(cfg: Config, c: Control, current: int, s: Sample): (Control, Decision) {
    if !s.available then Unavailable(cfg, c, current, s)
    else
      var v := ControlValue(c, s);
      var coolingDown := c.settled && c.cooldown > 0;
      var d := c.(settledValues := if c.settled then Remembered(c.settledValues, s.value) else c.settledValues,
                  cooldown := if coolingDown then c.cooldown - 1 else c.cooldown);
      if InTolerance(cfg, v) then WithinBand(cfg, d, s)
      else
        var e := d.(inBand := 0);
        if v < cfg.target then
          if c.settled then LowSettled(cfg, e, current, s.(value := v), coolingDown)
          else LowSearching(cfg, e, current, s.(value := v))
        else if v > cfg.target && current > cfg.minWorkers then
          if c.settled then HighSettled(cfg, e, current, s.(value := v), coolingDown)
          else HighSearching(cfg, e, current, s.(value := v))
        else (Reset(e).(ceilingSamples := 0), Keep)
  }

  // ---- safety ----

  ghost predicate Within(cfg: Config, workers: Option<int>) {
    workers.Some? ==> cfg.minWorkers <= workers.value <= cfg.maxWorkers
  }

  ghost predicate Safe(cfg: Config, c: Control, target: int) {
    && cfg.minWorkers <= target <= cfg.maxWorkers
    && Within(cfg, c.lower) && Within(cfg, c.upper)
    && (c.lower.Some? && c.upper.Some? ==> c.lower.value <= c.upper.value)
    && (c.ceilingSamples > 0 ==> target == cfg.maxWorkers)
  }

  function Moved(d: Decision, current: int): int { if d.Move? then d.next else current }

  lemma UnavailableSafe(cfg: Config, c: Control, current: int, s: Sample)
    requires Normal(cfg) && Safe(cfg, c, current)
    ensures var (d, decision) := Unavailable(cfg, c, current, s);
            && Safe(cfg, d, Moved(decision, current)) && d.inBand == 0 && !decision.InTarget?
            && (decision.Move? ==> decision.next > current)
            && (decision.AtCeiling? ==> current == cfg.maxWorkers && d.ceilingSamples >= cfg.requiredSamples)
  {
    hide RampAdjustment;
  }

  lemma LowSettledSafe(cfg: Config, c: Control, current: int, s: Sample, coolingDown: bool)
    requires Normal(cfg) && Safe(cfg, c, current)
    ensures var (d, decision) := LowSettled(cfg, c, current, s, coolingDown);
            && Safe(cfg, d, Moved(decision, current)) && d.inBand == c.inBand && !decision.InTarget?
            && (decision.Move? ==> decision.next > current)
            && (decision.AtCeiling? ==> current == cfg.maxWorkers && d.ceilingSamples >= cfg.requiredSamples)
  {
    hide RampAdjustment, Confirmed, Counted;
  }

  lemma LowSearchingSafe(cfg: Config, c: Control, current: int, s: Sample)
    requires Normal(cfg) && Safe(cfg, c, current)
    ensures var (d, decision) := LowSearching(cfg, c, current, s);
            && Safe(cfg, d, Moved(decision, current)) && d.inBand == c.inBand && !decision.InTarget?
            && (decision.Move? ==> decision.next > current)
            && (decision.AtCeiling? ==> current == cfg.maxWorkers && d.ceilingSamples >= cfg.requiredSamples)
  {
    hide RampAdjustment, Confirmed, Counted;
  }

  lemma HighSettledSafe(cfg: Config, c: Control, current: int, s: Sample, coolingDown: bool)
    requires Normal(cfg) && Safe(cfg, c, current) && current > cfg.minWorkers
    ensures var (d, decision) := HighSettled(cfg, c, current, s, coolingDown);
            && Safe(cfg, d, Moved(decision, current)) && d.inBand == c.inBand
            && (decision.Keep? || (decision.Move? && decision.next < current))
  {
    hide RampAdjustment, Confirmed, Counted;
  }

  lemma HighSearchingSafe(cfg: Config, c: Control, current: int, s: Sample)
    requires Normal(cfg) && Safe(cfg, c, current) && current > cfg.minWorkers
    ensures var (d, decision) := HighSearching(cfg, c, current, s);
            && Safe(cfg, d, Moved(decision, current)) && d.inBand == c.inBand
            && (decision.Keep? || (decision.Move? && decision.next < current))
  {
    hide RampAdjustment, Confirmed, Counted;
  }

  predicate Good(cfg: Config, c: Control, s: Sample) { s.available && InTolerance(cfg, ControlValue(c, s)) }

  /**
   * Whatever is sampled: targets stay within the limits, a low or missing sample only raises
   * and a high one only lowers the target, the bracket never crosses, and the ceiling is
   * counted only at the highest target.
   */
  lemma ObservedSafe(cfg: Config, c: Control, current: int, s: Sample)
    requires Normal(cfg) && Safe(cfg, c, current)
    ensures var (d, decision) := Observed(cfg, c, current, s);
            && Safe(cfg, d, Moved(decision, current))
            && (decision.Move? ==> decision.next != current)
            && (decision.Move? && decision.next > current ==> !s.available || ControlValue(c, s) < cfg.target - cfg.tolerance)
            && (decision.Move? && decision.next < current ==> s.available && ControlValue(c, s) > cfg.target + cfg.tolerance)
            && (decision.AtCeiling? ==> current == cfg.maxWorkers && d.ceilingSamples >= cfg.requiredSamples)
            && (decision.InTarget? <==> Good(cfg, c, s) && d.inBand >= cfg.requiredSamples)
            && d.inBand == (if Good(cfg, c, s) then c.inBand + 1 else 0)
  {
    hide Median, Remembered, LowSettled, LowSearching, HighSettled, HighSearching, Unavailable, RampAdjustment;
    UnavailableSafe(cfg, c, current, s);
    if s.available {
      var v := ControlValue(c, s);
      var coolingDown := c.settled && c.cooldown > 0;
      var e := c.(settledValues := if c.settled then Remembered(c.settledValues, s.value) else c.settledValues,
                  cooldown := if coolingDown then c.cooldown - 1 else c.cooldown, inBand := 0);
      var t := s.(value := v);
      LowSettledSafe(cfg, e, current, t, coolingDown);
      LowSearchingSafe(cfg, e, current, t);
      if current > cfg.minWorkers {
        HighSettledSafe(cfg, e, current, t, coolingDown);
        HighSearchingSafe(cfg, e, current, t);
      }
    }
  }

  // ---- convergence on a fixed plant ----

  /** A load that answers each number of workers with one value, and never less for more workers. */
  ghost predicate Plant(cfg: Config, f: int -> real) {
    forall a, b :: cfg.minWorkers <= a <= b <= cfg.maxWorkers ==> f(a) <= f(b)
  }

  function Answer(f: int -> real, workers: int): Sample { Sample(f(workers), true, 0, false) }

  predicate Low(cfg: Config, f: int -> real, workers: int) { f(workers) < cfg.target - cfg.tolerance }

  predicate High(cfg: Config, f: int -> real, workers: int) { f(workers) > cfg.target + cfg.tolerance }

  ghost predicate Known(c: Control) { c.lower.Some? && c.upper.Some? }

  ghost function Width(c: Control): int
    requires Known(c)
  {
    c.upper.value - c.lower.value
  }

  ghost predicate Inside(c: Control, target: int)
    requires Known(c)
  {
    c.lower.value < target < c.upper.value
  }

  /** The bracket encloses the target, its ends answer low and high, and an inner target is its middle. */
  ghost predicate Bracketing(cfg: Config, f: int -> real, c: Control, target: int) {
    && Safe(cfg, c, target) && !c.settled && c.pendingSamples < cfg.requiredAdjustmentSamples
    && (c.lower.None? ==> c.upper.None? && target == cfg.minWorkers)
    && (c.lower.Some? ==> Low(cfg, f, c.lower.value) && c.lower.value <= target)
    && (c.upper.Some? ==> High(cfg, f, c.upper.value) && target <= c.upper.value)
    && (Known(c) && Inside(c, target) ==> target == c.lower.value + Width(c) / 2)
  }

  /** A sample at `target` that asks for a move which the limits allow. */
  predicate Movable(cfg: Config, f: int -> real, target: int) {
    (Low(cfg, f, target) && target < cfg.maxWorkers) || (High(cfg, f, target) && target > cfg.minWorkers)
  }

  /** What a round of samples at `target` achieves: the bracket is found or halved, or the target rises. */
  ghost predicate Progress(cfg: Config, f: int -> real, c: Control, target: int, d: Control, t: int) {
    if Known(c) then
      && Known(d) && Width(d) <= (if Inside(c, target) then (Width(c) + 1) / 2 else Width(c))
      && (Width(d) >= 2 ==> Inside(d, t))
    else if Low(cfg, f, target) then d.upper.None? && d.lower.Some? && t > target
    else Known(d) && Width(d) <= cfg.maxWorkers - cfg.minWorkers && (Width(d) >= 2 ==> Inside(d, t))
  }

  /** Every sample at an inner target leaves at most half of the bracket, rounded up. */
  lemma LowHalves(cfg: Config, f: int -> real, c: Control, target: int)
    requires Normal(cfg) && cfg.settledStep <= 0 && Plant(cfg, f) && Bracketing(cfg, f, c, target)
    requires Low(cfg, f, target) && target < cfg.maxWorkers
    ensures var (d, decision) := Observed(cfg, c, target, Answer(f, target));
            && Bracketing(cfg, f, d, Moved(decision, target))
            && d.lower == Some(target) && d.upper == c.upper
            && (Known(c) ==> target < c.upper.value)
            && (if Confirmed(cfg, c, 1) then decision.Move? && Progress(cfg, f, c, target, d, decision.next)
                else decision == Keep && d.pendingDirection == 1 && d.pendingSamples == Counted(c, 1))
  {
    hide RampAdjustment;
  }

  lemma HighHalves(cfg: Config, f: int -> real, c: Control, target: int)
    requires Normal(cfg) && cfg.settledStep <= 0 && Plant(cfg, f) && Bracketing(cfg, f, c, target)
    requires High(cfg, f, target) && target > cfg.minWorkers
    ensures var (d, decision) := Observed(cfg, c, target, Answer(f, target));
            && Bracketing(cfg, f, d, Moved(decision, target))
            && d.lower == c.lower && d.upper == Some(target) && c.lower.Some? && c.lower.value < target
            && (if Confirmed(cfg, c, -1) then decision.Move? && Progress(cfg, f, c, target, d, decision.next)
                else decision == Keep && d.pendingDirection == -1 && d.pendingSamples == Counted(c, -1))
  {
    hide RampAdjustment;
  }

  /** The bracket search: `n` more samples of the plant. */
  function Search(cfg: Config, f: int -> real, c: Control, target: int, n: nat): (Control, int)
    decreases n
  {
    if n == 0 then (c, target)
    else
      var (d, decision) := Observed(cfg, c, target, Answer(f, target));
      Search(cfg, f, d, Moved(decision, target), n - 1)
  }

  lemma {:induction false} SearchJoin(cfg: Config, f: int -> real, c: Control, target: int, m: nat, n: nat)
    ensures Search(cfg, f, c, target, m + n)
         == Search(cfg, f, Search(cfg, f, c, target, m).0, Search(cfg, f, c, target, m).1, n)
    decreases m
  {
    hide Observed;
    if m > 0 {
      var (d, decision) := Observed(cfg, c, target, Answer(f, target));
      SearchJoin(cfg, f, d, Moved(decision, target), m - 1, n);
    }
  }

  /** Enough samples in a row confirm the direction and move the target. */
  lemma {:induction false} Round(cfg: Config, f: int -> real, c: Control, target: int) returns (m: nat)
    requires Normal(cfg) && cfg.settledStep <= 0 && Plant(cfg, f) && Bracketing(cfg, f, c, target)
    requires Movable(cfg, f, target)
    ensures 1 <= m <= cfg.requiredAdjustmentSamples
    ensures var direction := if Low(cfg, f, target) then 1 else -1;
            1 <= m <= cfg.requiredAdjustmentSamples - Counted(c, direction) + 1
    ensures var (d, t) := Search(cfg, f, c, target, m);
            Bracketing(cfg, f, d, t) && Progress(cfg, f, c, target, d, t)
    decreases cfg.requiredAdjustmentSamples - Counted(c, if Low(cfg, f, target) then 1 else -1)
  {
    var direction := if Low(cfg, f, target) then 1 else -1;
    if Low(cfg, f, target) { LowHalves(cfg, f, c, target); } else { HighHalves(cfg, f, c, target); }
    hide Observed, RampAdjustment, Plant;
    var (d, decision) := Observed(cfg, c, target, Answer(f, target));
    if decision.Move? {
      m := 1;
      assert Search(cfg, f, d, decision.next, 0) == (d, decision.next);
    } else {
      var rest := Round(cfg, f, d, target);
      m := 1 + rest;
    }
  }

  /** How often a bracket of this width can be halved, rounding up, before its ends touch. */
  function Halvings(w: int): nat { if w <= 1 then 0 else 1 + Halvings((w + 1) / 2) }

  lemma {:induction false} HalvingsMonotone(v: int, w: int)
    requires v <= w
    ensures Halvings(v) <= Halvings(w)
    decreases w
  {
    if v > 1 { HalvingsMonotone((v + 1) / 2, (w + 1) / 2); }
  }

  /** The rounds that are left before the search must have ended. */
  ghost function Budget(cfg: Config, c: Control, target: int): int {
    if Known(c) then Halvings(Width(c)) + (if Width(c) >= 2 && !Inside(c, target) then 1 else 0)
    else cfg.maxWorkers - target + 1 + Halvings(cfg.maxWorkers - cfg.minWorkers)
  }

  ghost predicate Decided(cfg: Config, f: int -> real, target: int) {
    InTolerance(cfg, f(target))
    || forall n :: cfg.minWorkers <= n <= cfg.maxWorkers ==> !InTolerance(cfg, f(n))
  }

  /** Ends that touch, or a limit that is still too low or too high, leave no workers in the band. */
  lemma NothingBetween(cfg: Config, f: int -> real, c: Control, target: int)
    requires Normal(cfg) && Plant(cfg, f) && Bracketing(cfg, f, c, target)
    requires (Known(c) && Width(c) <= 1) || !Movable(cfg, f, target)
    ensures Decided(cfg, f, target)
  {
    forall n | cfg.minWorkers <= n <= cfg.maxWorkers && !InTolerance(cfg, f(target))
      ensures !InTolerance(cfg, f(n))
    {
      if Known(c) && Width(c) <= 1 {
        assert n <= c.lower.value || c.upper.value <= n;
      }
    }
  }

  lemma BudgetFalls(cfg: Config, f: int -> real, c: Control, target: int, d: Control, t: int)
    requires Normal(cfg) && Bracketing(cfg, f, c, target) && Bracketing(cfg, f, d, t)
    requires Movable(cfg, f, target) && Progress(cfg, f, c, target, d, t) && (Known(c) ==> Width(c) >= 2)
    ensures 0 <= Budget(cfg, d, t) < Budget(cfg, c, target)
  {
    if Known(c) {
      HalvingsMonotone(Width(d), if Inside(c, target) then (Width(c) + 1) / 2 else Width(c));
    } else if !Low(cfg, f, target) {
      HalvingsMonotone(Width(d), cfg.maxWorkers - cfg.minWorkers);
    }
  }

  lemma {:induction false} SearchEnds(cfg: Config, f: int -> real, c: Control, target: int) returns (m: nat)
    requires Normal(cfg) && cfg.settledStep <= 0 && Plant(cfg, f) && Bracketing(cfg, f, c, target)
    ensures m <= cfg.requiredAdjustmentSamples * Budget(cfg, c, target)
    ensures Decided(cfg, f, Search(cfg, f, c, target, m).1)
    ensures Safe(cfg, Search(cfg, f, c, target, m).0, Search(cfg, f, c, target, m).1)
    decreases Budget(cfg, c, target)
  {
    hide Decided, Search, Observed, Plant, Progress, Bracketing, Safe;
    var r := cfg.requiredAdjustmentSamples;
    if InTolerance(cfg, f(target)) || (Known(c) && Width(c) <= 1) || !Movable(cfg, f, target) {
      m := 0;
      SearchOver(cfg, f, c, target);
    } else {
      var n := Round(cfg, f, c, target);
      var (d, t) := Search(cfg, f, c, target, n);
      BudgetFalls(cfg, f, c, target, d, t);
      var rest := SearchEnds(cfg, f, d, t);
      m := n + rest;
      SearchJoin(cfg, f, c, target, n, rest);
      Spend(r, n, rest, Budget(cfg, d, t), Budget(cfg, c, target));
    }
  }

  lemma Spend(r: int, n: int, rest: int, b: int, total: int)
    requires 0 <= n <= r && rest <= r * b && b < total
    ensures n + rest <= r * total
  {
    Scale(r, b + 1, total);
  }

  lemma SearchOver(cfg: Config, f: int -> real, c: Control, target: int)
    requires Normal(cfg) && Plant(cfg, f) && Bracketing(cfg, f, c, target)
    requires InTolerance(cfg, f(target)) || (Known(c) && Width(c) <= 1) || !Movable(cfg, f, target)
    ensures Decided(cfg, f, Search(cfg, f, c, target, 0).1)
    ensures Safe(cfg, Search(cfg, f, c, target, 0).0, Search(cfg, f, c, target, 0).1)
    ensures 0 <= cfg.requiredAdjustmentSamples * Budget(cfg, c, target)
  {
    if !InTolerance(cfg, f(target)) { NothingBetween(cfg, f, c, target); }
    assert Search(cfg, f, c, target, 0) == (c, target);
    assert Decided(cfg, f, target) && 0 <= Budget(cfg, c, target) && Safe(cfg, c, target);
    assert cfg.requiredAdjustmentSamples >= 1;
    hide *;
    Scale(cfg.requiredAdjustmentSamples, 0, Budget(cfg, c, target));
  }

  lemma Scale(r: int, a: int, b: int)
    requires 0 <= r && a <= b
    ensures r * a <= r * b
  {
  }

  /**
   * The search on a fixed nondecreasing load finds workers within the tolerance, or stops where
   * no allowed number of workers is within it, after at most
   * requiredAdjustmentSamples * (maxWorkers - minWorkers + 1 + halvings) samples.
   */
  lemma SearchDecides(cfg: Config, f: int -> real) returns (m: nat)
    requires Normal(cfg) && cfg.settledStep <= 0 && Plant(cfg, f)
    ensures var range := cfg.maxWorkers - cfg.minWorkers;
            m <= cfg.requiredAdjustmentSamples * (range + 1 + Halvings(range))
    ensures Decided(cfg, f, Search(cfg, f, INITIAL, cfg.minWorkers, m).1)
    ensures cfg.minWorkers <= Search(cfg, f, INITIAL, cfg.minWorkers, m).1 <= cfg.maxWorkers
  {
    hide Search, Observed, Plant, Decided, Halvings;
    m := SearchEnds(cfg, f, INITIAL, cfg.minWorkers);
  }

  // ---- the loops ----

  class Actuator {
    var target: int

    constructor (target: int)
      ensures this.target == target
    {
      this.target := target;
    }

    method SetTarget(n: int, ok: bool)
      modifies this
      ensures target == if ok then n else old(target)
    {
      if ok { target := n; }
    }
  }

  /** The loop's variables and the closures over them. */
  class Regulator {
    const cfg: Config
    var inBand: nat
    var ceilingSamples: nat
    var lower: Option<int>
    var upper: Option<int>
    var settled: bool
    var settledValues: seq<real>
    var bandObservations: nat
    var adjustmentCooldown: int
    var pendingDirection: int
    var pendingSamples: nat

    function Now(): Control
      reads this
    {
      Control(inBand, ceilingSamples, lower, upper, settled, settledValues, bandObservations,
              adjustmentCooldown, pendingDirection, pendingSamples)
    }

    constructor (cfg: Config)
      ensures this.cfg == cfg && Now() == INITIAL
    {
      this.cfg := cfg;
      inBand, ceilingSamples, lower, upper := 0, 0, None, None;
      settled, settledValues, bandObservations, adjustmentCooldown := false, [], 0, 0;
      pendingDirection, pendingSamples := 0, 0;
    }

    method ResetPendingAdjustment()
      modifies this
      ensures Now() == Reset(old(Now()))
    {
      pendingDirection, pendingSamples := 0, 0;
    }

    method AdjustmentConfirmed(direction: int) returns (confirmed: bool)
      modifies this
      ensures confirmed == Confirmed(cfg, old(Now()), direction)
      ensures Now() == AfterConfirm(cfg, old(Now()), direction)
    {
      if direction != pendingDirection { pendingDirection, pendingSamples := direction, 0; }
      pendingSamples := pendingSamples + 1;
      if pendingSamples < cfg.requiredAdjustmentSamples { return false; }
      ResetPendingAdjustment();
      confirmed := true;
    }

    /** One more sample at the highest target that does not reach it. */
    method CeilingSample() returns (decision: Decision)
      modifies this
      ensures (Now(), decision) == CountCeiling(cfg, old(Now()))
    {
      ResetPendingAdjustment();
      ceilingSamples := ceilingSamples + 1;
      decision := if ceilingSamples >= cfg.requiredSamples then AtCeiling else Keep;
    }

    method OnUnavailable(current: int, sample: Sample) returns (decision: Decision)
      modifies this
      ensures (Now(), decision) == Unavailable(cfg, old(Now()), current, sample)
    {
      inBand, bandObservations, settledValues := 0, 0, [];
      if current >= cfg.maxWorkers {
        decision := CeilingSample();
      } else {
        ResetPendingAdjustment();
        ceilingSamples := 0;
        decision := Move(Min(cfg.maxWorkers, current + RampAdjustment(cfg, sample, current)));
      }
    }

    method OnInBand(sample: Sample) returns (decision: Decision)
      modifies this
      ensures (Now(), decision) == WithinBand(cfg, old(Now()), sample)
    {
      inBand, ceilingSamples := inBand + 1, 0;
      ResetPendingAdjustment();
      if cfg.settledStep > 0 && !settled {
        bandObservations := bandObservations + 1;
        if bandObservations >= cfg.requiredSettlingSamples {
          settled, settledValues := true, [sample.value];
          lower, upper := None, None;
        }
      }
      decision := if inBand >= cfg.requiredSamples then InTarget else Keep;
    }

    method OnLowSettled(current: int, sample: Sample, coolingDown: bool) returns (decision: Decision)
      modifies this
      ensures (Now(), decision) == LowSettled(cfg, old(Now()), current, sample, coolingDown)
    {
      hide RampAdjustment, Counted;
      decision := Keep;
      if coolingDown {
        ResetPendingAdjustment();
        ceilingSamples := 0;
        return;
      }
      if current >= cfg.maxWorkers {
        decision := CeilingSample();
        return;
      }
      var confirmed := AdjustmentConfirmed(1);
      if confirmed {
        ceilingSamples := 0;
        var adjustment := Min(cfg.settledStep, RampAdjustment(cfg, sample, current));
        decision := Move(Min(cfg.maxWorkers, current + Max(1, adjustment)));
        adjustmentCooldown := cfg.adjustmentCooldownSamples;
      }
    }

    method OnLowSearching(current: int, sample: Sample) returns (decision: Decision)
      modifies this
      ensures (Now(), decision) == LowSearching(cfg, old(Now()), current, sample)
    {
      hide RampAdjustment, Counted;
      decision := Keep;
      var sameUpperTarget := upper == Some(current);
      if upper.Some? && current > upper.value { upper := None; }
      if lower.None? || current > lower.value { lower := Some(current); }
      if current >= cfg.maxWorkers {
        decision := CeilingSample();
        return;
      }
      var confirmed := AdjustmentConfirmed(1);
      if !confirmed { return; }
      ceilingSamples := 0;
      if upper.Some? && upper.value > current {
        decision := Move(current + Max(1, (upper.value - current) / 2));
      } else {
        var adjustment := RampAdjustment(cfg, sample, current);
        if sameUpperTarget {
          upper := None;
        } else if cfg.explorationStep > 0 {
          adjustment := Max(adjustment, Min(cfg.step, cfg.explorationStep));
        }
        decision := Move(Min(cfg.maxWorkers, current + adjustment));
      }
      bandObservations := 0;
    }

    method OnHighSettled(current: int, sample: Sample, coolingDown: bool) returns (decision: Decision)
      modifies this
      ensures (Now(), decision) == HighSettled(cfg, old(Now()), current, sample, coolingDown)
    {
      hide RampAdjustment, Counted;
      decision := Keep;
      ceilingSamples := 0;
      if coolingDown {
        ResetPendingAdjustment();
        return;
      }
      var confirmed := AdjustmentConfirmed(-1);
      if confirmed {
        var adjustment := Min(cfg.settledStep, RampAdjustment(cfg, sample, current));
        decision := Move(Max(cfg.minWorkers, current - Max(1, adjustment)));
        adjustmentCooldown := cfg.adjustmentCooldownSamples;
      }
    }

    method OnHighSearching(current: int, sample: Sample) returns (decision: Decision)
      modifies this
      ensures (Now(), decision) == HighSearching(cfg, old(Now()), current, sample)
    {
      hide RampAdjustment, Counted;
      decision := Keep;
      var sameLowerTarget := lower == Some(current);
      if lower.Some? && current < lower.value { lower := None; }
      if upper.None? || current < upper.value { upper := Some(current); }
      ceilingSamples := 0;
      var confirmed := AdjustmentConfirmed(-1);
      if !confirmed { return; }
      if lower.Some? && lower.value < current {
        decision := Move(lower.value + (current - lower.value) / 2);
      } else if sameLowerTarget {
        lower := None;
        decision := Move(Max(cfg.minWorkers, current - RampAdjustment(cfg, sample, current)));
      } else {
        decision := Move(Max(cfg.minWorkers, current / 2));
      }
      bandObservations := 0;
    }

    /** What one sample without error does to the variables, and whether the target moves. */
    method Observe(current: int, sample: Sample) returns (decision: Decision)
      modifies this
      ensures (Now(), decision) == Observed(cfg, old(Now()), current, sample)
    {
      hide Unavailable, WithinBand, LowSettled, LowSearching, HighSettled, HighSearching, Median, RampAdjustment;
      if !sample.available {
        decision := OnUnavailable(current, sample);
        return;
      }
      var value := sample.value;
      if settled {
        settledValues := Remembered(settledValues, sample.value);
        value := Median(settledValues);
      }
      var coolingDown := settled && adjustmentCooldown > 0;
      if coolingDown { adjustmentCooldown := adjustmentCooldown - 1; }
      if InTolerance(cfg, value) {
        decision := OnInBand(sample);
        return;
      }
      inBand := 0;
      if value < cfg.target {
        if settled {
          decision := OnLowSettled(current, sample.(value := value), coolingDown);
        } else {
          decision := OnLowSearching(current, sample.(value := value));
        }
      } else if value > cfg.target && current > cfg.minWorkers {
        if settled {
          decision := OnHighSettled(current, sample.(value := value), coolingDown);
        } else {
          decision := OnHighSearching(current, sample.(value := value));
        }
      } else {
        ceilingSamples := 0;
        ResetPendingAdjustment();
        decision := Keep;
      }
    }
  }

  /**
   * What surrounds a run: the samples, which SetTarget calls succeed (numbered by the samples
   * before them), and when the context is found done (twice around each sample).
   */
  datatype Env = Env(sample: nat -> Sample, setOk: nat -> bool, cancelled: nat -> bool)

  datatype Failure = Cancelled | SampleFailed | WorkloadErrors | MetricUnavailable | SetTargetFailed

  datatype ControlResult = ControlResult(
    reached: bool, ceiling: bool, measured: bool, actual: real, reachableMax: real,
    workers: int, samples: nat, err: Option<Failure>
  )

  const NO_RESULT: ControlResult := ControlResult(false, false, false, 0.0, 0.0, 0, 0, None)

  /** One sample without error, and the variables it was judged by. */
  datatype Tick = Tick(control: Control, current: int, sample: Sample)

  /** Every tick is safe, and each one follows from the one before. */
  ghost predicate Chained(cfg: Config, history: seq<Tick>) {
    && (forall i :: 0 <= i < |history| ==> Safe(cfg, history[i].control, history[i].current))
    && (forall i :: 0 < i < |history| ==>
          var (d, decision) := Observed(cfg, history[i - 1].control, history[i - 1].current, history[i - 1].sample);
          history[i].control == d && history[i].current == Moved(decision, history[i - 1].current))
  }

  /** The last `n` samples were within the tolerance. */
  ghost predicate LastGood(cfg: Config, history: seq<Tick>, n: int) {
    0 <= n <= |history| && forall i :: |history| - n <= i < |history| ==> Good(cfg, history[i].control, history[i].sample)
  }

  /** The state after the last tick is the current one. */
  ghost predicate Current(cfg: Config, history: seq<Tick>, c: Control, target: int) {
    && Chained(cfg, history) && Safe(cfg, c, target) && LastGood(cfg, history, c.inBand)
    && if history == [] then c == INITIAL && target == cfg.minWorkers
       else var last := history[|history| - 1];
            var (d, decision) := Observed(cfg, last.control, last.current, last.sample);
            c == d && target == Moved(decision, last.current)
  }

  lemma CurrentNext(cfg: Config, history: seq<Tick>, c: Control, target: int, s: Sample)
    requires Normal(cfg) && Current(cfg, history, c, target)
    ensures var (d, decision) := Observed(cfg, c, target, s);
            Current(cfg, history + [Tick(c, target, s)], d, Moved(decision, target))
  {
    ObservedSafe(cfg, c, target, s);
    hide Observed, Safe, Good;
  }

  /** What every result of a run says of its history. */
  ghost predicate Sound(cfg: Config, history: seq<Tick>, target: int, result: ControlResult) {
    && Chained(cfg, history) && cfg.minWorkers <= target <= cfg.maxWorkers && result.workers == target
    && (result.reached ==> LastGood(cfg, history, cfg.requiredSamples))
    && (result.ceiling ==> target == cfg.maxWorkers && result.err.None?)
    && |history| <= result.samples <= |history| + 1
  }

  lemma CurrentSound(cfg: Config, history: seq<Tick>, c: Control, target: int, result: ControlResult)
    requires Normal(cfg) && Current(cfg, history, c, target) && result.workers == target && !result.ceiling
    requires (result.reached ==> c.inBand >= cfg.requiredSamples) && |history| <= result.samples <= |history| + 1
    ensures Sound(cfg, history, target, result)
    ensures cfg.minWorkers <= target <= cfg.maxWorkers && Safe(cfg, c, target)
  {
    hide Good, Observed;
  }

  lemma CurrentStarts(cfg: Config)
    requires Normal(cfg)
    ensures Current(cfg, [], INITIAL, cfg.minWorkers)
  {
  }

  /** The loop's invariant. */
  ghost predicate Running(cfg: Config, history: seq<Tick>, c: Control, target: int, result: ControlResult) {
    && Current(cfg, history, c, target) && result.workers == target && !result.ceiling && result.err.None?
    && (result.reached ==> c.inBand >= cfg.requiredSamples) && result.samples == |history|
  }

  /** The measured part of the result after one more sample. */
  function Measured(result: ControlResult, s: Sample): ControlResult {
    if !s.available then result
    else result.(measured := true, actual := s.value,
                 reachableMax := if !result.measured || s.value > result.reachableMax then s.value else result.reachableMax)
  }

  /** One sample of the loop; `stop` when the run ends with it. */
  method Turn(cfg: Config, regulator: Regulator, actuator: Actuator, env: Env, continuous: bool,
              was: ControlResult, ghost before: seq<Tick>)
    returns (result: ControlResult, ghost history: seq<Tick>, stop: bool)
    requires Normal(cfg) && regulator.cfg == cfg
    requires Running(cfg, before, regulator.Now(), actuator.target, was)
    modifies regulator, actuator
    ensures result.samples == was.samples + 1
    ensures if stop then Sound(cfg, history, actuator.target, result)
            else Running(cfg, history, regulator.Now(), actuator.target, result)
  {
    hide Observed, Current, Sound, Normalized;
    var sample, current := env.sample(was.samples), actuator.target;
    result, history, stop := was.(samples := was.samples + 1), before, true;
    CurrentSound(cfg, before, regulator.Now(), current, result);
    if sample.failed || sample.errors > 0 {
      result := result.(err := Some(if sample.failed then SampleFailed else WorkloadErrors));
      CurrentSound(cfg, before, regulator.Now(), current, result);
      return;
    }
    CurrentNext(cfg, before, regulator.Now(), current, sample);
    ObservedSafe(cfg, regulator.Now(), current, sample);
    history := before + [Tick(regulator.Now(), current, sample)];
    ghost var next := Moved(Observed(cfg, regulator.Now(), current, sample).1, current);
    ghost var good := Good(cfg, regulator.Now(), sample);
    result := Measured(result, sample);
    hide Good, Measured, Safe;
    var decision := regulator.Observe(current, sample);
    if regulator.inBand == 0 { result := result.(reached := false); }
    assert Current(cfg, history, regulator.Now(), next);
    if decision.InTarget? {
      result := result.(reached := true);
      stop := !continuous;
      CurrentSound(cfg, history, regulator.Now(), current, result);
    } else if decision.AtCeiling? {
      CurrentSound(cfg, history, regulator.Now(), current, result);
      CeilingSound(cfg, history, current, result);
      result := result.(ceiling := true);
    } else if decision.Move? {
      CurrentSound(cfg, history, regulator.Now(), next, result.(workers := next));
      if env.setOk(result.samples) {
        actuator.SetTarget(decision.next, true);
        result, stop := result.(workers := actuator.target), false;
      } else {
        StuckSound(cfg, history, next, current, result);
        result := result.(err := Some(SetTargetFailed));
      }
    } else {
      stop := false;
    }
  }

  lemma CeilingSound(cfg: Config, history: seq<Tick>, target: int, result: ControlResult)
    requires Sound(cfg, history, target, result) && target == cfg.maxWorkers && result.err.None?
    ensures Sound(cfg, history, target, result.(ceiling := true))
  {
  }

  /** A target that could not be set leaves the old one in place. */
  lemma StuckSound(cfg: Config, history: seq<Tick>, next: int, target: int, result: ControlResult)
    requires Sound(cfg, history, next, result.(workers := next)) && !result.reached && !result.ceiling
    requires cfg.minWorkers <= target <= cfg.maxWorkers && result.workers == target
    ensures Sound(cfg, history, target, result.(err := Some(SetTargetFailed)))
  {
  }

  /**
   * `Run` and `RunUntil`: every target lies within the limits and follows from the samples by the
   * laws above; `Run` takes at most maxSamples samples; a result that is reached rests on as many
   * samples in the band as required; a ceiling is reported only at the highest target.
   */
  method Run(config: Config, actuator: Actuator, env: Env, continuous: bool, deadline: nat)
    returns (result: ControlResult, ghost history: seq<Tick>)
    requires continuous ==> env.cancelled(2 * deadline)
    modifies actuator
    ensures env.setOk(0) ==> Sound(Normalized(config), history, actuator.target, result)
    ensures !env.setOk(0) ==> result.err == Some(SetTargetFailed) && result.samples == 0
    ensures !continuous ==> result.samples <= Normalized(config).maxSamples
    ensures continuous ==> result.samples <= deadline
  {
    var cfg := Normalized(config);
    hide Normalized, Observed, Current, Sound;
    result, history := NO_RESULT, [];
    actuator.SetTarget(cfg.minWorkers, env.setOk(0));
    if !env.setOk(0) { return result.(err := Some(SetTargetFailed)), []; }
    result := result.(workers := actuator.target);
    var regulator := new Regulator(cfg);
    CurrentStarts(cfg);
    while true
      invariant fresh(regulator) && regulator.cfg == cfg
      invariant Running(cfg, history, regulator.Now(), actuator.target, result)
      invariant if continuous then result.samples <= deadline else result.samples < cfg.maxSamples
      decreases (if continuous then deadline else cfg.maxSamples) - result.samples
    {
      CurrentSound(cfg, history, regulator.Now(), actuator.target, result);
      if env.cancelled(2 * result.samples) {
        result := Interrupted(cfg, history, regulator.Now(), actuator.target, result, continuous);
        return;
      }
      var stop: bool;
      result, history, stop := Turn(cfg, regulator, actuator, env, continuous, result, history);
      if stop { return; }
      CurrentSound(cfg, history, regulator.Now(), actuator.target, result);
      if !continuous && result.samples >= cfg.maxSamples { return; }
      if env.cancelled(2 * result.samples - 1) {
        result := Interrupted(cfg, history, regulator.Now(), actuator.target, result, continuous);
        return;
      }
    }
  }

  /** The end of the context is an error for `Run` and the normal end of `RunUntil`. */
  method Interrupted(cfg: Config, ghost history: seq<Tick>, ghost c: Control, ghost target: int, result: ControlResult,
                     continuous: bool) returns (r: ControlResult)
    requires Normal(cfg) && Running(cfg, history, c, target, result)
    ensures Sound(cfg, history, target, r) && r.samples == result.samples
    ensures r == if continuous then result else result.(err := Some(Cancelled))
  {
    hide Current;
    r := if continuous then result else result.(err := Some(Cancelled));
    CurrentSound(cfg, history, c, target, r);
  }

  /** Why a sample ends `RunToMinimum`. */
  function MinimumTargetSampleError(s: Sample): Option<Failure> {
    if s.failed then Some(SampleFailed)
    else if s.errors > 0 then Some(WorkloadErrors)
    else if !s.available then Some(MetricUnavailable)
    else None
  }

  function Higher(x: real, y: real): real { if x >= y then x else y }

  /** The highest of the first n samples, but never below 0. */
  ghost function Peak(env: Env, n: nat): real {
    if n == 0 then 0.0 else Higher(Peak(env, n - 1), env.sample(n - 1).value)
  }

  /** The samples that were measured: all but a last one that ended the run. */
  ghost function MeasuredCount(env: Env, samples: nat): nat {
    if samples > 0 && MinimumTargetSampleError(env.sample(samples - 1)).Some? then samples - 1 else samples
  }

  /** The targets of a run never fall and stay within the limits. */
  ghost predicate Rising(cfg: Config, targets: seq<int>) {
    && (forall i :: 0 <= i < |targets| ==> cfg.minWorkers <= targets[i] <= cfg.maxWorkers)
    && (forall i, j :: 0 <= i < j < |targets| ==> targets[i] < targets[j])
  }

  lemma RisingNext(cfg: Config, targets: seq<int>, next: int)
    requires Rising(cfg, targets) && targets != [] && targets[|targets| - 1] < next <= cfg.maxWorkers
    ensures Rising(cfg, targets + [next])
  {
  }

  lemma RisingStarts(cfg: Config)
    requires cfg.minWorkers <= cfg.maxWorkers
    ensures Rising(cfg, []) && Rising(cfg, [cfg.minWorkers])
  {
  }

  /**
   * The monotone run: whatever is sampled, with or without a deadline, it ends within
   * requiredSamples * (maxWorkers - minWorkers + 1) samples, its targets strictly rise, and
   * what it reports follows from the last samples.
   */
  method RunToMinimum(config: Config, actuator: Actuator, env: Env)
    returns (result: ControlResult, ghost targets: seq<int>)
    modifies actuator
    ensures var cfg := Normalized(config);
            && Rising(cfg, targets)
            && result.samples <= cfg.requiredSamples * (cfg.maxWorkers - cfg.minWorkers + 1)
            && (targets != [] ==> targets[0] == cfg.minWorkers && actuator.target == targets[|targets| - 1])
            && (result.reached ==>
                  cfg.requiredSamples <= result.samples && result.err.None?
                  && forall k :: result.samples - cfg.requiredSamples <= k < result.samples ==>
                       env.sample(k).available && env.sample(k).value >= cfg.target)
            && result.reachableMax == Peak(env, MeasuredCount(env, result.samples))
            && (result.ceiling ==>
                  !result.reached && result.samples > 0 && actuator.target == cfg.maxWorkers
                  && env.sample(result.samples - 1).value < cfg.target)
            && (result.reached || result.ceiling || result.err.Some?)
  {
    var cfg := Normalized(config);
    hide Normalized, RampAdjustment, Rising;
    RisingStarts(cfg);
    result, targets := NO_RESULT, [];
    actuator.SetTarget(cfg.minWorkers, env.setOk(0));
    if !env.setOk(0) {
      NoSamples(cfg);
      return result.(err := Some(SetTargetFailed)), [];
    }
    targets := [actuator.target];
    var consecutive := 0;
    while true
      invariant Rising(cfg, targets) && targets != [] && targets[0] == cfg.minWorkers
      invariant actuator.target == targets[|targets| - 1]
      invariant cfg.minWorkers <= actuator.target <= cfg.maxWorkers
      invariant 0 <= consecutive < cfg.requiredSamples && consecutive <= result.samples
      invariant result.samples <= cfg.requiredSamples * (actuator.target - cfg.minWorkers) + consecutive
      invariant forall k :: result.samples - consecutive <= k < result.samples ==>
                  env.sample(k).available && env.sample(k).value >= cfg.target
      invariant !result.reached && !result.ceiling && result.err.None?
      invariant result.reachableMax == Peak(env, result.samples)
      invariant MeasuredCount(env, result.samples) == result.samples
      decreases cfg.maxWorkers - actuator.target, cfg.requiredSamples - consecutive
    {
      Steps(cfg.requiredSamples, actuator.target - cfg.minWorkers, cfg.maxWorkers - cfg.minWorkers);
      if env.cancelled(2 * result.samples) {
        result := result.(err := Some(Cancelled));
        return;
      }
      var sample := env.sample(result.samples);
      result := result.(samples := result.samples + 1);
      if sample.failed || sample.errors > 0 || !sample.available {
        result := result.(err := MinimumTargetSampleError(sample));
        return;
      }
      result := result.(measured := true, actual := sample.value,
                        reachableMax := Higher(result.reachableMax, sample.value));
      if sample.value >= cfg.target {
        consecutive := consecutive + 1;
        if consecutive >= cfg.requiredSamples {
          result := result.(reached := true);
          return;
        }
      } else {
        var current := actuator.target;
        if current >= cfg.maxWorkers {
          result := result.(ceiling := true);
          return;
        }
        var next := Min(cfg.maxWorkers, current + RampAdjustment(cfg, sample, current));
        if !env.setOk(result.samples) {
          result := result.(err := Some(SetTargetFailed));
          return;
        }
        Steps(cfg.requiredSamples, current + 1 - cfg.minWorkers, next - cfg.minWorkers);
        consecutive := 0;
        RisingNext(cfg, targets, next);
        actuator.SetTarget(next, true);
        targets := targets + [next];
      }
      if env.cancelled(2 * result.samples - 1) {
        result := result.(err := Some(Cancelled));
        return;
      }
    }
  }

  lemma NoSamples(cfg: Config)
    requires Normal(cfg)
    ensures 0 <= cfg.requiredSamples * (cfg.maxWorkers - cfg.minWorkers + 1)
  {
    Scale(cfg.requiredSamples, 0, cfg.maxWorkers - cfg.minWorkers + 1);
  }

  /** Arithmetic of the bound: a step up pays for a full count. */
  lemma Steps(r: int, a: int, b: int)
    requires r >= 1 && a <= b
    ensures r * a <= r * b && r * (a + 1) == r * a + r && r * (b + 1) == r * b + r
  {
    Scale(r, a, b);
  }
}
