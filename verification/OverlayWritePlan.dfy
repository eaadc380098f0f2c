/**
  The order of overlay writes (src/core/OverlayWritePlan.cpp) and the safety of every state that executing it can
  reach when writes fail or stay unconfirmed.
 */
module OverlayWritePlan {
  import opened Options

  datatype OverlayType = Unknown | RAM | Disk

  type Megabytes = x: int | 0 <= x < 0x1_0000_0000

  datatype OverlayConfig = OverlayConfig(
    overlayType: OverlayType,
    maximumSize: Megabytes,
    warningThreshold: Megabytes,
    criticalThreshold: Megabytes)

  datatype OverlayConfigDelta = OverlayConfigDelta(
    overlayType: Option<OverlayType>,
    maximumSize: Option<Megabytes>,
    warningThreshold: Option<Megabytes>,
    criticalThreshold: Option<Megabytes>)

  datatype OverlayField = TypeField | MaximumSizeField | WarningField | CriticalField

  datatype WriteStep = WriteStep(field: OverlayField, requiresPrevious: bool)

  // ----- The plan -----

  function CapacityPlan(changes: OverlayConfigDelta): seq<WriteStep> {
    if changes.overlayType.Some? && changes.maximumSize.Some? then
      if changes.overlayType.value.Disk? then [WriteStep(MaximumSizeField, false), WriteStep(TypeField, true)]
      else [WriteStep(TypeField, false), WriteStep(MaximumSizeField, true)]
    else if changes.overlayType.Some? then [WriteStep(TypeField, false)]
    else if changes.maximumSize.Some? then [WriteStep(MaximumSizeField, false)]
    else []
  }

  predicate CriticalFirst(baseline: OverlayConfig, warning: Megabytes, critical: Megabytes) {
    var warningNeedsCritical := baseline.criticalThreshold != 0 && warning >= baseline.criticalThreshold;
    var enableCriticalFirst := baseline.criticalThreshold == 0 && critical > baseline.warningThreshold;
    warning != 0 && (warningNeedsCritical || enableCriticalFirst)
  }

  function ThresholdPlan(baseline: OverlayConfig, changes: OverlayConfigDelta): seq<WriteStep> {
    if changes.warningThreshold.Some? && changes.criticalThreshold.Some? then
      if CriticalFirst(baseline, changes.warningThreshold.value, changes.criticalThreshold.value) then
        [WriteStep(CriticalField, false), WriteStep(WarningField, true)]
      else
        [WriteStep(WarningField, false), WriteStep(CriticalField, changes.criticalThreshold.value <= baseline.warningThreshold)]
    else if changes.warningThreshold.Some? then [WriteStep(WarningField, false)]
    else if changes.criticalThreshold.Some? then [WriteStep(CriticalField, false)]
    else []
  }

  function Plan(baseline: OverlayConfig, changes: OverlayConfigDelta): seq<WriteStep> {
    CapacityPlan(changes) + ThresholdPlan(baseline, changes)
  }

  method PlanOverlayWrites(baseline: OverlayConfig, changes: OverlayConfigDelta) returns (steps: seq<WriteStep>)
    ensures steps == Plan(baseline, changes)
  {
    steps := [];
    if changes.overlayType.Some? && changes.maximumSize.Some? {
      if changes.overlayType.value == Disk {
        steps := steps + [WriteStep(MaximumSizeField, false)];
        steps := steps + [WriteStep(TypeField, true)];
      } else {
        steps := steps + [WriteStep(TypeField, false)];
        steps := steps + [WriteStep(MaximumSizeField, true)];
      }
    } else if changes.overlayType.Some? {
      steps := steps + [WriteStep(TypeField, false)];
    } else if changes.maximumSize.Some? {
      steps := steps + [WriteStep(MaximumSizeField, false)];
    }

    if changes.warningThreshold.Some? && changes.criticalThreshold.Some? {
      var warningNeedsCritical := baseline.criticalThreshold != 0 && changes.warningThreshold.value >= baseline.criticalThreshold;
      var enableCriticalFirst := baseline.criticalThreshold == 0 && changes.criticalThreshold.value > baseline.warningThreshold;
      if changes.warningThreshold.value != 0 && (warningNeedsCritical || enableCriticalFirst) {
        steps := steps + [WriteStep(CriticalField, false)];
        steps := steps + [WriteStep(WarningField, true)];
      } else {
        steps := steps + [WriteStep(WarningField, false)];
        steps := steps + [WriteStep(CriticalField, changes.criticalThreshold.value <= baseline.warningThreshold)];
      }
    } else if changes.warningThreshold.Some? {
      steps := steps + [WriteStep(WarningField, false)];
    } else if changes.criticalThreshold.Some? {
      steps := steps + [WriteStep(CriticalField, false)];
    }
  }

  // ----- What the plan is for -----

  /** Two thresholds that are both on are ordered. */
  predicate ThresholdsLegal(c: OverlayConfig) {
    c.warningThreshold != 0 && c.criticalThreshold != 0 ==> c.warningThreshold < c.criticalThreshold
  }

  /** A disk overlay has its minimum size. */
  predicate CapacityLegal(c: OverlayConfig) {
    c.overlayType.Disk? ==> c.maximumSize >= 1024
  }

  predicate Legal(c: OverlayConfig) {
    ThresholdsLegal(c) && CapacityLegal(c)
  }

  predicate Changes(changes: OverlayConfigDelta, field: OverlayField) {
    match field
    case TypeField => changes.overlayType.Some?
    case MaximumSizeField => changes.maximumSize.Some?
    case WarningField => changes.warningThreshold.Some?
    case CriticalField => changes.criticalThreshold.Some?
  }

  /** The configuration after one write has taken effect. */
  function Written(c: OverlayConfig, changes: OverlayConfigDelta, field: OverlayField): OverlayConfig
    requires Changes(changes, field)
  {
    match field
    case TypeField => c.(overlayType := changes.overlayType.value)
    case MaximumSizeField => c.(maximumSize := changes.maximumSize.value)
    case WarningField => c.(warningThreshold := changes.warningThreshold.value)
    case CriticalField => c.(criticalThreshold := changes.criticalThreshold.value)
  }

  function OrElse<T>(change: Option<T>, current: T): T {
    if change.Some? then change.value else current
  }

  /** The baseline overlaid with the changes. */
  function Overlaid(c: OverlayConfig, changes: OverlayConfigDelta): OverlayConfig {
    OverlayConfig(OrElse(changes.overlayType, c.overlayType), OrElse(changes.maximumSize, c.maximumSize),
                  OrElse(changes.warningThreshold, c.warningThreshold), OrElse(changes.criticalThreshold, c.criticalThreshold))
  }

  function Partner(field: OverlayField): OverlayField {
    match field
    case TypeField => MaximumSizeField
    case MaximumSizeField => TypeField
    case WarningField => CriticalField
    case CriticalField => WarningField
  }

  function Fields(steps: seq<WriteStep>): (fields: seq<OverlayField>)
    ensures |fields| == |steps|
  {
    if steps == [] then [] else [steps[0].field] + Fields(steps[1..])
  }

  lemma FieldsCons(step: WriteStep, steps: seq<WriteStep>)
    ensures Fields([step] + steps) == [step.field] + Fields(steps)
  {
    assert ([step] + steps)[1..] == steps;
  }

  lemma {:induction false} FieldsAppend(a: seq<WriteStep>, b: seq<WriteStep>)
    ensures Fields(a + b) == Fields(a) + Fields(b)
  {
    if a == [] {
      assert a + b == b;
    } else {
      FieldsAppend(a[1..], b);
      FieldsCons(a[0], a[1..]);
      FieldsCons(a[0], a[1..] + b);
      assert [a[0]] + a[1..] == a && [a[0]] + (a[1..] + b) == a + b;
    }
  }

  predicate IsCapacity(field: OverlayField) {
    field.TypeField? || field.MaximumSizeField?
  }

  ghost predicate Distinct(fields: seq<OverlayField>) {
    forall i, j :: 0 <= i < j < |fields| ==> fields[i] != fields[j]
  }

  /** Every dependent step directly follows its pair partner. */
  ghost predicate PairedUp(steps: seq<WriteStep>) {
    forall i :: 0 <= i < |steps| && steps[i].requiresPrevious ==> i > 0 && steps[i - 1].field == Partner(steps[i].field)
  }

  lemma CapacityFields(changes: OverlayConfigDelta)
    ensures var plan := CapacityPlan(changes);
            && Distinct(Fields(plan)) && PairedUp(plan)
            && (forall field :: field in Fields(plan) <==> IsCapacity(field) && Changes(changes, field))
  {
    var plan := CapacityPlan(changes);
    if |plan| == 2 {
      assert Fields(plan) == [plan[0].field, plan[1].field];
    } else if |plan| == 1 {
      assert Fields(plan) == [plan[0].field];
    }
  }

  lemma ThresholdFields(baseline: OverlayConfig, changes: OverlayConfigDelta)
    ensures var plan := ThresholdPlan(baseline, changes);
            && Distinct(Fields(plan)) && PairedUp(plan)
            && (forall field :: field in Fields(plan) <==> !IsCapacity(field) && Changes(changes, field))
  {
    var plan := ThresholdPlan(baseline, changes);
    if |plan| == 2 {
      assert Fields(plan) == [plan[0].field, plan[1].field];
    } else if |plan| == 1 {
      assert Fields(plan) == [plan[0].field];
    }
  }

  /**
    The plan writes each changed field exactly once and no other, and a step that depends on its predecessor
    depends on its own pair partner.
   */
  lemma PlanWritesChangesOnce(baseline: OverlayConfig, changes: OverlayConfigDelta)
    ensures var plan := Plan(baseline, changes);
            && Distinct(Fields(plan)) && PairedUp(plan)
            && (forall field :: field in Fields(plan) <==> Changes(changes, field))
  {
    var capacity, thresholds := CapacityPlan(changes), ThresholdPlan(baseline, changes);
    CapacityFields(changes);
    ThresholdFields(baseline, changes);
    FieldsAppend(capacity, thresholds);
    assert forall field :: field in Fields(capacity) ==> field !in Fields(thresholds);
    forall i | 0 <= i < |capacity + thresholds| && (capacity + thresholds)[i].requiresPrevious
      ensures i > 0 && (capacity + thresholds)[i - 1].field == Partner((capacity + thresholds)[i].field)
    {
      if i >= |capacity| {
        assert thresholds[i - |capacity|].requiresPrevious;
      }
    }
  }

  // ----- Execution -----

  /** An unconfirmed write may or may not have taken effect. */
  datatype Outcome = Confirmed | Failed | Unconfirmed(landed: bool)

  predicate TakesEffect(outcome: Outcome) {
    outcome.Confirmed? || (outcome.Unconfirmed? && outcome.landed)
  }

  predicate Writable(steps: seq<WriteStep>, changes: OverlayConfigDelta) {
    forall i :: 0 <= i < |steps| ==> Changes(changes, steps[i].field)
  }

  lemma PlanWritable(baseline: OverlayConfig, changes: OverlayConfigDelta)
    ensures Writable(CapacityPlan(changes), changes)
    ensures Writable(ThresholdPlan(baseline, changes), changes)
    ensures Writable(Plan(baseline, changes), changes)
  {
  }

  /**
    All configurations the system goes through, from `c` on, when `steps` are executed with the given outcomes. A
    dependent step runs only if its predecessor was confirmed; a skipped step counts as not confirmed.
   */
  function States(c: OverlayConfig, changes: OverlayConfigDelta, steps: seq<WriteStep>, outcomes: seq<Outcome>, confirmed: bool): (states: seq<OverlayConfig>)
    requires |outcomes| == |steps| && Writable(steps, changes)
    ensures |states| == |steps| + 1 && states[0] == c
    decreases steps
  {
    if steps == [] then [c]
    else
      var runs := !steps[0].requiresPrevious || confirmed;
      var next := if runs && TakesEffect(outcomes[0]) then Written(c, changes, steps[0].field) else c;
      [c] + States(next, changes, steps[1..], outcomes[1..], runs && outcomes[0].Confirmed?)
  }

  function Attempt(c: OverlayConfig, changes: OverlayConfigDelta, outcomes: seq<Outcome>): (states: seq<OverlayConfig>)
    requires |outcomes| == |Plan(c, changes)|
    ensures |states| == |outcomes| + 1 && states[0] == c
  {
    PlanWritable(c, changes);
    States(c, changes, Plan(c, changes), outcomes, true)
  }

  ghost predicate AllLegal(states: seq<OverlayConfig>) {
    forall i :: 0 <= i < |states| ==> Legal(states[i])
  }

  function Final(states: seq<OverlayConfig>): OverlayConfig
    requires |states| > 0
  {
    states[|states| - 1]
  }

  /** The states of a pair of steps, spelled out. */
  lemma PairStates(c: OverlayConfig, changes: OverlayConfigDelta, steps: seq<WriteStep>, outcomes: seq<Outcome>, confirmed: bool)
    requires |outcomes| == |steps| <= 2 && Writable(steps, changes)
    requires |steps| > 0 ==> !steps[0].requiresPrevious
    ensures var states := States(c, changes, steps, outcomes, confirmed);
            && (|steps| >= 1 ==>
                  && states[1] == (if TakesEffect(outcomes[0]) then Written(c, changes, steps[0].field) else c))
            && (|steps| == 2 ==>
                  && states[2] == (if (!steps[1].requiresPrevious || outcomes[0].Confirmed?) && TakesEffect(outcomes[1])
                                   then Written(states[1], changes, steps[1].field) else states[1]))
  {
    if |steps| == 2 {
      assert steps[1..][1..] == [];
    }
  }

  /** An independent first step makes the confirmation of what came before irrelevant. */
  lemma IndependentStart(c: OverlayConfig, changes: OverlayConfigDelta, steps: seq<WriteStep>, outcomes: seq<Outcome>, confirmed: bool)
    requires |outcomes| == |steps| && Writable(steps, changes) && (steps != [] ==> !steps[0].requiresPrevious)
    ensures States(c, changes, steps, outcomes, confirmed) == States(c, changes, steps, outcomes, true)
  {
  }

  lemma AppendStep(c: OverlayConfig, first: seq<OverlayConfig>, second: seq<OverlayConfig>, whole: seq<OverlayConfig>, n: nat)
    requires n + 1 == |first| && whole == first[..n] + second
    ensures [c] + whole == ([c] + first)[..n + 1] + second
    ensures Final([c] + first) == Final(first)
  {
  }

  /** Executing two independent plans in a row. */
  lemma {:induction false} StatesAppend(c: OverlayConfig, changes: OverlayConfigDelta, a: seq<WriteStep>, b: seq<WriteStep>,
                                        o: seq<Outcome>, p: seq<Outcome>, confirmed: bool)
    requires Writable(a, changes) && Writable(b, changes) && Writable(a + b, changes) && |o| == |a| && |p| == |b|
    requires b != [] ==> !b[0].requiresPrevious
    ensures var first := States(c, changes, a, o, confirmed);
            States(c, changes, a + b, o + p, confirmed) == first[..|a|] + States(Final(first), changes, b, p, true)
    decreases |a|
  {
    if a == [] {
      assert a + b == b && o + p == p;
      IndependentStart(c, changes, b, p, confirmed);
    } else {
      var runs := !a[0].requiresPrevious || confirmed;
      var next := if runs && TakesEffect(o[0]) then Written(c, changes, a[0].field) else c;
      var known := runs && o[0].Confirmed?;
      assert (a + b)[1..] == a[1..] + b && (o + p)[1..] == o[1..] + p;
      StatesAppend(next, changes, a[1..], b, o[1..], p, known);
      var first := States(next, changes, a[1..], o[1..], known);
      AppendStep(c, first, States(Final(first), changes, b, p, true), States(next, changes, a[1..] + b, o[1..] + p, known), |a| - 1);
    }
  }

  predicate SameThresholds(a: OverlayConfig, b: OverlayConfig) {
    a.warningThreshold == b.warningThreshold && a.criticalThreshold == b.criticalThreshold
  }

  predicate SameCapacity(a: OverlayConfig, b: OverlayConfig) {
    a.overlayType == b.overlayType && a.maximumSize == b.maximumSize
  }

  predicate AllConfirmed(outcomes: seq<Outcome>) {
    forall i :: 0 <= i < |outcomes| ==> outcomes[i].Confirmed?
  }

  lemma CapacityIsSafe(c: OverlayConfig, changes: OverlayConfigDelta, outcomes: seq<Outcome>)
    requires CapacityLegal(c) && CapacityLegal(Overlaid(c, changes)) && |outcomes| == |CapacityPlan(changes)|
    requires Writable(CapacityPlan(changes), changes)
    ensures var states := States(c, changes, CapacityPlan(changes), outcomes, true);
            && (forall i :: 0 <= i < |states| ==> CapacityLegal(states[i]) && SameThresholds(states[i], c))
            && Overlaid(Final(states), changes) == Overlaid(c, changes)
            && (AllConfirmed(outcomes) ==> SameCapacity(Final(states), Overlaid(c, changes)))
  {
    PairStates(c, changes, CapacityPlan(changes), outcomes, true);
  }

  lemma ThresholdsAreSafe(c: OverlayConfig, baseline: OverlayConfig, changes: OverlayConfigDelta, outcomes: seq<Outcome>)
    requires SameThresholds(c, baseline) && ThresholdsLegal(c) && ThresholdsLegal(Overlaid(c, changes))
    requires |outcomes| == |ThresholdPlan(baseline, changes)| && Writable(ThresholdPlan(baseline, changes), changes)
    ensures var states := States(c, changes, ThresholdPlan(baseline, changes), outcomes, true);
            && (forall i :: 0 <= i < |states| ==> ThresholdsLegal(states[i]) && SameCapacity(states[i], c))
            && Overlaid(Final(states), changes) == Overlaid(c, changes)
            && (AllConfirmed(outcomes) ==> SameThresholds(Final(states), Overlaid(c, changes)))
  {
    PairStates(c, changes, ThresholdPlan(baseline, changes), outcomes, true);
  }

  /**
    From any legal configuration and any changes whose target is legal, every state that executing the plan reaches
    is legal, whatever writes are confirmed, fail or stay unconfirmed. The state it ends in has the same target, and
    if every write is confirmed it is the target.
   */
  lemma PlanIsSafe(c: OverlayConfig, changes: OverlayConfigDelta, outcomes: seq<Outcome>)
    requires Legal(c) && Legal(Overlaid(c, changes)) && |outcomes| == |Plan(c, changes)|
    ensures AllLegal(Attempt(c, changes, outcomes))
    ensures Overlaid(Final(Attempt(c, changes, outcomes)), changes) == Overlaid(c, changes)
    ensures AllConfirmed(outcomes) ==> Final(Attempt(c, changes, outcomes)) == Overlaid(c, changes)
  {
    PlanWritable(c, changes);
    var a, b := CapacityPlan(changes), ThresholdPlan(c, changes);
    var first := States(c, changes, a, outcomes[..|a|], true);
    CapacityIsSafe(c, changes, outcomes[..|a|]);
    var middle := Final(first);
    assert SameThresholds(middle, c);
    var second := States(middle, changes, b, outcomes[|a|..], true);
    ThresholdsAreSafe(middle, c, changes, outcomes[|a|..]);
    assert outcomes == outcomes[..|a|] + outcomes[|a|..];
    StatesAppend(c, changes, a, b, outcomes[..|a|], outcomes[|a|..], true);
    var states := Attempt(c, changes, outcomes);
    assert states == first[..|a|] + second;
    forall i | 0 <= i < |states|
      ensures Legal(states[i])
    {
      if i < |a| {
        assert states[i] == first[i];
      } else {
        assert states[i] == second[i - |a|];
      }
    }
    assert Final(states) == Final(second);
  }

  // ----- Planning again after a failure -----

  /** The number of writes depends on the changes alone. */
  function PlanLength(changes: OverlayConfigDelta): nat {
    (if changes.overlayType.Some? then 1 else 0) + (if changes.maximumSize.Some? then 1 else 0)
    + (if changes.warningThreshold.Some? then 1 else 0) + (if changes.criticalThreshold.Some? then 1 else 0)
  }

  lemma PlanHasLength(c: OverlayConfig, changes: OverlayConfigDelta)
    ensures |Plan(c, changes)| == PlanLength(changes)
  {
  }

  /** The configuration after a number of attempts, each planned afresh from the state the one before left. */
  function AfterAttempts(c: OverlayConfig, changes: OverlayConfigDelta, attempts: seq<seq<Outcome>>): OverlayConfig
    requires forall i :: 0 <= i < |attempts| ==> |attempts[i]| == PlanLength(changes)
  {
    if attempts == [] then c
    else
      var before := AfterAttempts(c, changes, attempts[..|attempts| - 1]);
      PlanHasLength(before, changes);
      Final(Attempt(before, changes, attempts[|attempts| - 1]))
  }

  lemma {:induction false} AttemptsKeepTarget(c: OverlayConfig, changes: OverlayConfigDelta, attempts: seq<seq<Outcome>>)
    requires Legal(c) && Legal(Overlaid(c, changes))
    requires forall i :: 0 <= i < |attempts| ==> |attempts[i]| == PlanLength(changes)
    ensures Legal(AfterAttempts(c, changes, attempts))
    ensures Overlaid(AfterAttempts(c, changes, attempts), changes) == Overlaid(c, changes)
    decreases |attempts|
  {
    if attempts != [] {
      var before := AfterAttempts(c, changes, attempts[..|attempts| - 1]);
      AttemptsKeepTarget(c, changes, attempts[..|attempts| - 1]);
      PlanHasLength(before, changes);
      PlanIsSafe(before, changes, attempts[|attempts| - 1]);
    }
  }

  /**
    Any number of attempts, failed in any way, leaves a legal configuration with the same target; planning again from
    there is safe in every state, and one attempt with every write confirmed reaches the target.
   */
  lemma RetriesConverge(c: OverlayConfig, changes: OverlayConfigDelta, attempts: seq<seq<Outcome>>, outcomes: seq<Outcome>)
    requires Legal(c) && Legal(Overlaid(c, changes))
    requires forall i :: 0 <= i < |attempts| ==> |attempts[i]| == PlanLength(changes)
    requires |outcomes| == PlanLength(changes)
    ensures var left := AfterAttempts(c, changes, attempts);
            && |Plan(left, changes)| == |outcomes|
            && Legal(left)
            && AllLegal(Attempt(left, changes, outcomes))
            && (AllConfirmed(outcomes) ==> Final(Attempt(left, changes, outcomes)) == Overlaid(c, changes))
  {
    var left := AfterAttempts(c, changes, attempts);
    PlanHasLength(left, changes);
    AttemptsKeepTarget(c, changes, attempts);
    PlanIsSafe(left, changes, outcomes);
  }

  // ----- The order matters -----

  /**
    Whenever writing one of two thresholds first, or without the other, would break the order of the thresholds, the
    plan writes the other one first and makes this one wait for its confirmation; one of the two can always go first.
   */
  lemma OrderIsNeeded(c: OverlayConfig, changes: OverlayConfigDelta)
    requires Legal(c) && Legal(Overlaid(c, changes))
    requires changes.warningThreshold.Some? && changes.criticalThreshold.Some?
    ensures var plan := ThresholdPlan(c, changes);
            && !ThresholdsLegal(Written(c, changes, WarningField)) ==> plan == [WriteStep(CriticalField, false), WriteStep(WarningField, true)]
    ensures var plan := ThresholdPlan(c, changes);
            && !ThresholdsLegal(Written(c, changes, CriticalField)) ==> plan == [WriteStep(WarningField, false), WriteStep(CriticalField, true)]
    ensures ThresholdsLegal(Written(c, changes, WarningField)) || ThresholdsLegal(Written(c, changes, CriticalField))
  {
  }

  /**
    What a failed first write does to the second, where that one would be confirmed. Of two capacity writes the second is
    skipped. Of two thresholds the second is skipped if it is the warning; a critical value still gets through exactly if it
    lies above the warning threshold that stays.
   */
  lemma AfterFailedWrite(c: OverlayConfig, changes: OverlayConfigDelta)
    ensures changes.overlayType.Some? && changes.maximumSize.Some? ==>
              && |CapacityPlan(changes)| == 2 && Writable(CapacityPlan(changes), changes)
              && Final(States(c, changes, CapacityPlan(changes), [Failed, Confirmed], true)) == c
    ensures changes.warningThreshold.Some? && changes.criticalThreshold.Some? ==>
              && |ThresholdPlan(c, changes)| == 2 && Writable(ThresholdPlan(c, changes), changes)
              && Final(States(c, changes, ThresholdPlan(c, changes), [Failed, Confirmed], true))
                 == if ThresholdPlan(c, changes)[0].field.WarningField? && changes.criticalThreshold.value > c.warningThreshold
                    then c.(criticalThreshold := changes.criticalThreshold.value) else c
  {
    PlanWritable(c, changes);
    if changes.overlayType.Some? && changes.maximumSize.Some? {
      PairStates(c, changes, CapacityPlan(changes), [Failed, Confirmed], true);
    }
    if changes.warningThreshold.Some? && changes.criticalThreshold.Some? {
      PairStates(c, changes, ThresholdPlan(c, changes), [Failed, Confirmed], true);
    }
  }

  /** The warning goes first unless it is switched on and either reaches the critical threshold of the baseline or waits for one. */
  lemma WhichThresholdGoesFirst(c: OverlayConfig, changes: OverlayConfigDelta)
    requires changes.warningThreshold.Some? && changes.criticalThreshold.Some?
    ensures ThresholdPlan(c, changes)[0].field.CriticalField?
       <==> || !ThresholdsLegal(Written(c, changes, WarningField))
            || (changes.warningThreshold.value != 0 && c.criticalThreshold == 0 && changes.criticalThreshold.value > c.warningThreshold)
  {
  }

  // ----- The executor of the application -----

  function OnlyThresholds(changes: OverlayConfigDelta): OverlayConfigDelta {
    changes.(overlayType := None, maximumSize := None)
  }

  function OnlyCapacity(changes: OverlayConfigDelta): OverlayConfigDelta {
    changes.(warningThreshold := None, criticalThreshold := None)
  }

  /** The baselines that the executor reads: each holds only the fields of its own pair. */
  function ThresholdBaseline(c: OverlayConfig): OverlayConfig {
    OverlayConfig(Unknown, 0, c.warningThreshold, c.criticalThreshold)
  }

  function CapacityBaseline(c: OverlayConfig): OverlayConfig {
    OverlayConfig(if c.overlayType.RAM? then RAM else Disk, c.maximumSize, 0, 0)
  }

  /** Neither of the executor's plans misses anything in the fields that its baseline leaves out. */
  lemma ExecutorPlans(c: OverlayConfig, changes: OverlayConfigDelta)
    ensures Plan(ThresholdBaseline(c), OnlyThresholds(changes)) == ThresholdPlan(c, changes)
    ensures Plan(CapacityBaseline(c), OnlyCapacity(changes)) == CapacityPlan(changes)
  {
  }

  /** The thresholds are written first; the capacity is planned afterwards, from what is read then. */
  function Execution(c: OverlayConfig, changes: OverlayConfigDelta, first: seq<Outcome>, second: seq<Outcome>): (states: seq<OverlayConfig>)
    requires |first| == |Plan(ThresholdBaseline(c), OnlyThresholds(changes))|
    requires |second| == |Plan(CapacityBaseline(c), OnlyCapacity(changes))|
    ensures |states| == |first| + |second| + 1
  {
    ExecutorPlans(c, changes);
    PlanWritable(c, changes);
    var thresholds := States(c, changes, Plan(ThresholdBaseline(c), OnlyThresholds(changes)), first, true);
    var middle := Final(thresholds);
    ExecutorPlans(middle, changes);
    thresholds[..|first|] + States(middle, changes, Plan(CapacityBaseline(middle), OnlyCapacity(changes)), second, true)
  }

  /**
    The executor writes the thresholds before the capacity, each from its own plan on its own baseline. That is as safe as
    the whole plan: every state is legal whatever writes are confirmed, fail or stay unconfirmed, the target is kept, and
    it is reached when every write is confirmed.
   */
  lemma ExecutionIsSafe(c: OverlayConfig, changes: OverlayConfigDelta, first: seq<Outcome>, second: seq<Outcome>)
    requires Legal(c) && Legal(Overlaid(c, changes))
    requires |first| == |Plan(ThresholdBaseline(c), OnlyThresholds(changes))|
    requires |second| == |Plan(CapacityBaseline(c), OnlyCapacity(changes))|
    ensures AllLegal(Execution(c, changes, first, second))
    ensures Overlaid(Final(Execution(c, changes, first, second)), changes) == Overlaid(c, changes)
    ensures AllConfirmed(first) && AllConfirmed(second) ==> Final(Execution(c, changes, first, second)) == Overlaid(c, changes)
  {
    ExecutorPlans(c, changes);
    PlanWritable(c, changes);
    var thresholds := States(c, changes, ThresholdPlan(c, changes), first, true);
    ThresholdsAreSafe(c, c, changes, first);
    var middle := Final(thresholds);
    assert SameCapacity(middle, c) && CapacityLegal(Overlaid(middle, changes));
    ExecutorPlans(middle, changes);
    var capacity := States(middle, changes, CapacityPlan(changes), second, true);
    CapacityIsSafe(middle, changes, second);
    JoinedStates(thresholds, capacity, c, middle);
    assert Execution(c, changes, first, second) == thresholds[..|first|] + capacity;
  }

  /** States with legal thresholds and one capacity, followed by states with legal capacity and one pair of thresholds. */
  lemma JoinedStates(a: seq<OverlayConfig>, b: seq<OverlayConfig>, c: OverlayConfig, middle: OverlayConfig)
    requires |a| > 0 && |b| > 0 && CapacityLegal(c) && ThresholdsLegal(middle)
    requires forall i :: 0 <= i < |a| ==> ThresholdsLegal(a[i]) && SameCapacity(a[i], c)
    requires forall i :: 0 <= i < |b| ==> CapacityLegal(b[i]) && SameThresholds(b[i], middle)
    ensures AllLegal(a[..|a| - 1] + b) && Final(a[..|a| - 1] + b) == Final(b)
  {
    var whole := a[..|a| - 1] + b;
    forall i | 0 <= i < |whole|
      ensures Legal(whole[i])
    {
      if i < |a| - 1 {
        assert whole[i] == a[i];
      } else {
        assert whole[i] == b[i - (|a| - 1)];
      }
    }
  }
}
