/** What the validator accepted is what drivers are handed: each leaf call is granted to its effective act. */
module CallLaws {
  import opened Common
  import opened Tables
  import opened ExprValues
  import opened Blueprint
  import opened RunModel

  /** A leaf action the embedded engine grants to this very act. */
  predicate Granted(call: Call) {
    IsEmbedded(call.act) && call.action in Capabilities(call.act) && !IsFlow(call.action)
  }

  /** Every call so far was granted, and went to a driver that had been set up. */
  predicate Lawful(run: Run) {
    forall i :: 0 <= i < |run.calls| ==> Granted(run.calls[i]) && run.calls[i].act in run.drivers
  }

  /** What an accepted step promises once its effective act is known. */
  predicate Admitted(step: Step, act: string, check: ParamCheck) {
    && IsEmbedded(act)
    && step.action in Capabilities(act)
    && (step.action == "if" ==>
          ValidateField(step.thenSteps, act, check).None? && ValidateField(step.elseSteps, act, check).None?)
    && (IsFlow(step.action) && step.action != "if" ==> ValidateField(step.steps, act, check).None?)
  }

  lemma AcceptedIsAdmitted(step: Step, inherited: string, check: ParamCheck)
    requires IsEmbedded(inherited) && ValidateStep(step, inherited, check).None?
    ensures Admitted(step, EffectiveAct(step, inherited), check)
  {
  }

  lemma {:induction false} AcceptedAt(steps: seq<Step>, i: nat, act: string, check: ParamCheck)
    requires i < |steps| && ValidateAll(steps, act, check).None?
    ensures ValidateStep(steps[i], act, check).None?
  {
    hide ValidateStep;
    if i > 0 {
      AcceptedAt(steps[1..], i - 1, act, check);
    }
  }

  lemma {:induction false} SkipRestCalls(steps: seq<Step>, i: nat, path: string, run: Run)
    requires i <= |steps|
    ensures SkipRest(steps, i, path, run).calls == run.calls && SkipRest(steps, i, path, run).drivers == run.drivers
    decreases |steps| - i
  {
    hide Seed, DisplayId;
    if i < |steps| {
      var id := DisplayId(steps[i], i, path);
      SkipRestCalls(steps, i + 1, path,
        Record(Seeded(run, steps[i]), SkippedResult(id, steps[i].action), StepSkipped(id, None)));
    }
  }

  lemma CallLeafLawful(step: Step, act: string, s: Setting, run: Run)
    requires Lawful(run) && Granted(Call(act, step.action))
    ensures Lawful(CallLeaf(step, act, s, run).0)
  {
    hide Capabilities, TemplateContext;
  }

  lemma {:induction false} RunOneLawful(step: Step, index: nat, path: string, inherited: string, s: Setting, run: Run,
                                        check: ParamCheck)
    requires Lawful(run) && IsEmbedded(inherited) && ValidateStep(step, inherited, check).None?
    ensures Lawful(RunOne(step, index, path, inherited, s, run).0)
    decreases step, 1, 0
  {
    hide ValidateStep, Try, Admitted;
    if !s.world.aborted(run.clock) {
      AcceptedIsAdmitted(step, inherited, check);
      TryLawful(step, index, path, EffectiveAct(step, inherited), s, Tick(run), check);
    }
  }

  lemma {:induction false} TryLawful(step: Step, index: nat, path: string, act: string, s: Setting, run: Run,
                                     check: ParamCheck)
    requires Lawful(run) && Admitted(step, act, check)
    ensures Lawful(Try(step, index, path, act, s, run).0)
    decreases step, 0, 1
  {
    hide ValidateField, RunFlow, CallLeaf, Guarded;
    if Guarded(step, s, run) == Ok(true) {
      var started := Emit(run, StepStarted(DisplayId(step, index, path)));
      if IsFlow(step.action) {
        RunFlowLawful(step, StepPath(step, index, path), act, s, started, check);
      } else {
        CallLeafLawful(step, act, s, started);
      }
    }
  }

  lemma {:induction false} RunFlowLawful(step: Step, path: string, act: string, s: Setting, run: Run,
                                         check: ParamCheck)
    requires Lawful(run) && Admitted(step, act, check) && IsFlow(step.action)
    ensures Lawful(RunFlow(step, path, act, s, run).0)
    decreases step, 0, 0
  {
    hide Walk, Rounds, PlanIf, PlanRepeat, PlanForEach, PlanOptional, ValidateAll, Restored, Capabilities;
    match PlanFlow(step, s, run)
    case Err(_) =>
    case Ok(NoBranch) =>
    case Ok(Branch(_, nested)) => WalkLawful(nested, 0, path, act, false, s, run, check);
    case Ok(Times(n, nested)) => RoundsLawful(nested, None, [], 0, n, path, act, s, run, check);
    case Ok(Each(variable, items, nested)) =>
      RoundsLawful(nested, Some(variable), items, 0, |items|, path, act, s, run, check);
    case Ok(Tolerate(nested)) => WalkLawful(nested, 0, path, act, true, s, run, check);
  }

  lemma {:induction false} RoundsLawful(nested: seq<Step>, variable: Option<string>, items: seq<Value>, i: nat, n: nat,
                                        path: string, act: string, s: Setting, run: Run, check: ParamCheck)
    requires Lawful(run) && IsEmbedded(act) && ValidateAll(nested, act, check).None?
    requires i <= n && (variable.Some? ==> n == |items|)
    ensures Lawful(Rounds(nested, variable, items, i, n, path, act, s, run).0)
    decreases nested, |nested| + 1, n - i
  {
    hide Walk, ValidateAll, RoundPath;
    if i < n {
      var bound := Bound(run, variable, items, i);
      WalkLawful(nested, 0, RoundPath(path, i), act, false, s, bound, check);
      var (after, thrown, _) := Walk(nested, 0, RoundPath(path, i), act, false, s, bound);
      if thrown.None? {
        RoundsLawful(nested, variable, items, i + 1, n, path, act, s, after, check);
      }
    }
  }

  /** Through any nesting and any override, an accepted list hands drivers granted leaf actions only. */
  lemma {:induction false} WalkLawful(steps: seq<Step>, i: nat, path: string, act: string, tolerate: bool, s: Setting,
                                      run: Run, check: ParamCheck)
    requires Lawful(run) && IsEmbedded(act) && ValidateAll(steps, act, check).None?
    requires i <= |steps|
    ensures Lawful(Walk(steps, i, path, act, tolerate, s, run).0)
    decreases steps, |steps| - i, 0
  {
    hide RunOne, SkipRest, Seed, ValidateAll, ValidateStep;
    if i < |steps| {
      var (after, thrown) := RunOne(steps[i], i, path, act, s, run);
      AcceptedAt(steps, i, act, check);
      RunOneLawful(steps[i], i, path, act, s, run, check);
      if thrown.None? {
        WalkLawful(steps, i + 1, path, act, tolerate, s, after, check);
      } else {
        SkipRestCalls(steps, i + 1, path, Seeded(after, steps[i]));
      }
    }
  }
}
