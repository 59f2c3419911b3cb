/** The laws of RunLaws and the static promise of the validator, carried through every step action by one induction. */
module StepLaws {
  import opened Common
  import opened Tables
  import opened ExprValues
  import opened Blueprint
  import opened RunModel
  import opened RunLaws
  import SeedLaws

  // Accounting.

  /** What the `try` of one step leaves behind: a typed error is thrown but not reported yet. */
  ghost predicate Tried(before: Run, after: Run, attempt: Attempt) {
    match attempt
    case NotTaken => Kept(before, after, 0) && EndsWith(after, None)
    case Finished(_, status) =>
      && (status == Success || status == Partial)
      && Kept(before, after, if status == Partial then 1 else 0) && EndsWith(after, None)
    case Broke(Raw(Typed(e))) =>
      && Kept(before, after, 0) && Quiet(after.faults) && NoRepeat(after.drivers)
      && after.faults != [] && after.faults[|after.faults| - 1] == Typed(e)
      && TypedOf(after.faults) == Reported(after.events) + [e]
    case Broke(thrown) => Kept(before, after, Owed(Some(thrown))) && EndsWith(after, Some(thrown))
  }

  lemma KeptCompose(a: Run, b: Run, c: Run, x: int, y: int)
    requires Kept(a, b, x) && Kept(b, c, y)
    ensures Kept(a, c, x + y)
  {
    hide Debt, Closing, Skipping;
  }

  lemma TriedAfter(a: Run, b: Run, c: Run, attempt: Attempt)
    requires Kept(a, b, 0) && Tried(b, c, attempt)
    ensures Tried(a, c, attempt)
  {
    hide Debt, Closing, Skipping, Reported, TypedOf, Quiet, NoRepeat;
  }

  lemma RaiseTried(run: Run, fault: Fault)
    requires Steady(run)
    ensures Tried(run, Raise(run, fault), Broke(Raw(fault)))
  {
    hide Debt, Closing, Skipping, Reported, TypedOf;
    RaiseKeepsBooks(run, fault);
    assert Raise(run, fault).faults[..|run.faults|] == run.faults;
  }

  lemma ResolveKeeps(act: string, s: Setting, run: Run)
    requires Steady(run)
    ensures var (after, problem) := Resolve(act, s, run);
      Kept(run, after, 0) && Steady(after) && (problem.None? ==> act in after.drivers)
  {
    hide Reported, TypedOf, CountResults, CountFinished, CountSkipped;
  }

  lemma CallLeafTried(step: Step, act: string, s: Setting, run: Run)
    requires Steady(run)
    ensures var (after, attempt) := CallLeaf(step, act, s, run); Tried(run, after, attempt)
  {
    hide Debt, Closing, Skipping, Reported, TypedOf, NoRepeat, Chatter, Resolve;
    var (ready, problem) := Resolve(act, s, run);
    ResolveKeeps(act, s, run);
    if problem.Some? {
      RaiseTried(ready, problem.value);
      TriedAfter(run, ready, Raise(ready, problem.value), Broke(Raw(problem.value)));
    } else {
      var answer := s.world.leaf(step, act, TemplateContext(s, ready), ready.clock);
      var spoken := ready.(events := ready.events + Chatter(answer.chatter));
      ChatterKeepsBooks(ready, answer.chatter);
      var called := Tick(spoken).(calls := ready.calls + [Call(act, step.action)]);
      SameBooks(spoken, called);
      KeptCompose(ready, spoken, called, 0, 0);
      KeptCompose(run, ready, called, 0, 0);
      match answer.outcome {
        case Ok(_) =>
        case Err(fault) =>
          RaiseTried(called, fault);
          TriedAfter(run, called, Raise(called, fault), Broke(Raw(fault)));
      }
    }
  }

  /** The books read results and events only. */
  lemma SameBooks(a: Run, b: Run)
    requires a.results == b.results && a.events == b.events && a.outputs == b.outputs && a.scope == b.scope
    ensures Kept(a, b, 0)
  {
  }

  lemma SettleKeeps(step: Step, index: nat, path: string, before: Run, run: Run, attempt: Attempt)
    requires Tried(before, run, attempt)
    ensures var (after, thrown) := Settle(step, index, path, run, attempt);
      Kept(before, after, Owed(thrown)) && EndsWith(after, thrown)
  {
    hide Debt, Closing, Skipping, Reported, TypedOf, NoRepeat, DisplayId, OutputKey;
    var id := DisplayId(step, index, path);
    match attempt
    case NotTaken => RecordCounts(run, SkippedResult(id, step.action), StepSkipped(id, step.guard));
    case Finished(outputs, status) =>
      var key := OutputKey(step, index, path);
      var published := run.(outputs := Put(run.outputs, key, outputs));
      PutKeepsKeys(run.outputs, key, outputs);
      PublishingKeepsBooks(run, published);
      RecordCounts(published, StepResult(id, step.action, status, outputs, None), StepFinished(id));
    case Broke(StepFailed(e)) => FailedCounts(run, StepResult(id, step.action, Failed, [], Some(e)));
    case Broke(Raw(Typed(e))) => RecordCounts(run, StepResult(id, step.action, Failed, [], Some(e)), ErrorEvent(id, e));
    case Broke(Raw(fault)) =>
  }

  lemma PublishingKeepsBooks(a: Run, b: Run)
    requires a.results == b.results && a.events == b.events
    ensures Balanced(a, b, 0)
  {
  }

  lemma FailedCounts(run: Run, entry: StepResult)
    requires entry.status == Failed
    ensures Balanced(run, run.(results := run.results + [entry]), 0)
  {
    assert (run.results + [entry])[..|run.results|] == run.results;
  }

  lemma {:induction false} SkipRestKeeps(steps: seq<Step>, i: nat, path: string, run: Run)
    requires i <= |steps|
    ensures var after := SkipRest(steps, i, path, run);
      && after.scope == run.scope && Balanced(run, after, 0)
      && Reported(after.events) == Reported(run.events)
      && after.faults == run.faults && after.drivers == run.drivers && after.calls == run.calls
    decreases |steps| - i
  {
    hide Debt, Closing, Skipping, Reported, Seed, DisplayId;
    if i < |steps| {
      var id := DisplayId(steps[i], i, path);
      var seeded := Seeded(run, steps[i]);
      var next := Record(seeded, SkippedResult(id, steps[i].action), StepSkipped(id, None));
      PublishingKeepsBooks(run, seeded);
      RecordCounts(seeded, SkippedResult(id, steps[i].action), StepSkipped(id, None));
      SkipRestKeeps(steps, i + 1, path, next);
    }
  }

  lemma SeedsKeepKeys(before: SeedLaws.Outputs, after: SeedLaws.Outputs, ids: set<string>)
    requires SeedLaws.Seeds(before, after, ids)
    ensures KeysKept(before, after)
  {
    forall key | Has(before, key) ensures Has(after, key) {
      assert Find(before, key).Some?;
      assert Find(after, key).Some?;
    }
  }

  lemma GiveWayKeeps(steps: seq<Step>, i: nat, path: string, before: Run, run: Run, thrown: Option<Thrown>)
    requires i < |steps|
    requires thrown.Some? && thrown.value.StepFailed?
    requires Kept(before, run, 1) && EndsWith(run, thrown)
    ensures var after := SkipRest(steps, i + 1, path, Seeded(run, steps[i]));
      Kept(before, after, 1) && Steady(after)
  {
    hide Debt, Closing, Skipping, Reported, TypedOf, NoRepeat, Seed, SkipRest, SeedLaws.Seeds;
    var seeded := Seeded(run, steps[i]);
    var after := SkipRest(steps, i + 1, path, seeded);
    SeedLaws.SeedSeeds(run.outputs, steps[i]);
    SeedLaws.SkipRestSeeds(steps, i + 1, path, seeded);
    SeedsKeepKeys(run.outputs, seeded.outputs, Ids(steps[i]));
    SeedsKeepKeys(seeded.outputs, after.outputs, AllIds(steps[i + 1..]));
    PublishingKeepsBooks(run, seeded);
    SkipRestKeeps(steps, i + 1, path, seeded);
  }

  /** Every step, whatever the world answers: scope back, keys kept, books balanced, nothing lost or reported twice. */
  lemma {:induction false} RunOneKeeps(step: Step, index: nat, path: string, inherited: string, s: Setting, run: Run)
    requires Steady(run)
    ensures var (after, thrown) := RunOne(step, index, path, inherited, s, run);
      Kept(run, after, Owed(thrown)) && EndsWith(after, thrown)
    decreases step, 1, 0
  {
    hide Kept, Tried, Settle, Try, Reported, TypedOf;
    var begun := Tick(run);
    SameBooks(run, begun);
    if s.world.aborted(run.clock) {
      RaiseTried(begun, Cancelled);
      TriedAfter(run, begun, Raise(begun, Cancelled), Broke(Raw(Cancelled)));
      CancelledLeaves(run, Raise(begun, Cancelled));
    } else {
      var act := EffectiveAct(step, inherited);
      var (after, attempt) := Try(step, index, path, act, s, begun);
      TryKeeps(step, index, path, act, s, begun);
      TriedAfter(run, begun, after, attempt);
      SettleKeeps(step, index, path, run, after, attempt);
    }
  }

  lemma CancelledLeaves(before: Run, after: Run)
    requires Tried(before, after, Broke(Raw(Cancelled)))
    ensures Kept(before, after, 0) && EndsWith(after, Some(Raw(Cancelled)))
  {
  }

  lemma {:induction false} TryKeeps(step: Step, index: nat, path: string, act: string, s: Setting, run: Run)
    requires Steady(run)
    ensures var (after, attempt) := Try(step, index, path, act, s, run); Tried(run, after, attempt)
    decreases step, 0, 1
  {
    hide Kept, CallLeaf, RunFlow, Reported, TypedOf, Debt, Closing, Skipping, Guarded, StepPath, DisplayId;
    match Guarded(step, s, run)
    case Err(fault) => RaiseTried(run, fault);
    case Ok(false) => SameBooks(run, run);
    case Ok(true) =>
      var event := StepStarted(DisplayId(step, index, path));
      var started := Emit(run, event);
      EmitKeepsBooks(run, event);
      if IsFlow(step.action) {
        RunFlowKeeps(step, StepPath(step, index, path), act, s, started);
      } else {
        CallLeafTried(step, act, s, started);
      }
      var (after, attempt) := Try(step, index, path, act, s, run);
      TriedAfter(run, started, after, attempt);
  }

  lemma EndedTried(before: Run, after: Run, thrown: Option<Thrown>, outputs: Table<Value>, status: Status)
    requires status == Success || (status == Partial && thrown.None?)
    requires Kept(before, after, if status == Partial then 1 else Owed(thrown))
    requires EndsWith(after, thrown)
    ensures Tried(before, after, Ended(thrown, outputs, status))
  {
    hide Kept, Reported, TypedOf;
  }

  lemma {:induction false} RunFlowKeeps(step: Step, path: string, act: string, s: Setting, run: Run)
    requires Steady(run)
    ensures var (after, attempt) := RunFlow(step, path, act, s, run); Tried(run, after, attempt)
    decreases step, 0, 0
  {
    hide Kept, Tried, EndsWith, Steady, PlanFlow, Walk, Rounds, Restored, Ended;
    match PlanFlow(step, s, run)
    case Err(fault) => RaiseTried(run, fault);
    case Ok(NoBranch) =>
      SameBooks(run, run);
      SteadyEnds(run);
      NoBranchTried(run);
    case Ok(Branch(name, nested)) =>
      var (after, thrown, _) := Walk(nested, 0, path, act, false, s, run);
      WalkKeeps(nested, 0, path, act, false, s, run);
      EndedTried(run, after, thrown, [("branch", Str(name))], Success);
    case Ok(Times(n, nested)) =>
      var (after, thrown) := Rounds(nested, None, [], 0, n, path, act, s, run);
      RoundsKeep(nested, None, [], 0, n, path, act, s, run, run.scope);
      EndedTried(run, after, thrown, [("iterations", Number(n))], Success);
    case Ok(Each(variable, items, nested)) =>
      var (after, thrown) := Rounds(nested, Some(variable), items, 0, |items|, path, act, s, run);
      RestoredIsBefore(run.scope, run.scope, variable, Null);
      RoundsKeep(nested, Some(variable), items, 0, |items|, path, act, s, run, run.scope);
      EndedTried(run, after.(scope := Restored(after.scope, variable, run.scope)), thrown,
        [("iterations", Number(|items|))], Success);
    case Ok(Tolerate(nested)) =>
      var (after, thrown, gaveWay) := Walk(nested, 0, path, act, true, s, run);
      WalkKeeps(nested, 0, path, act, true, s, run);
      EndedTried(run, after, thrown, [], if gaveWay then Partial else Success);
  }

  lemma NoBranchTried(run: Run)
    requires Steady(run)
    ensures Tried(run, run, Finished([("branch", Null)], Success))
  {
  }

  lemma EndsSteady(run: Run)
    requires EndsWith(run, None)
    ensures Steady(run)
  {
  }

  lemma BoundSteady(run: Run, variable: Option<string>, items: seq<Value>, i: nat)
    requires Steady(run) && (variable.Some? ==> i < |items|)
    ensures Steady(Bound(run, variable, items, i))
  {
  }

  lemma SteadyEnds(run: Run)
    requires Steady(run)
    ensures EndsWith(run, None)
  {
  }

  /** What a loop leaves once its variable is restored (a `repeat` has none). */
  function Unbound(run: Run, variable: Option<string>, before: Table<Value>): Run {
    if variable.Some? then run.(scope := Restored(run.scope, variable.value, before)) else run
  }

  lemma UnboundBound(run: Run, variable: Option<string>, items: seq<Value>, i: nat, before: Table<Value>)
    requires variable.Some? ==> i < |items|
    ensures Unbound(Bound(run, variable, items, i), variable, before) == Unbound(run, variable, before)
  {
    if variable.Some? {
      RestoredIsBefore(before, run.scope, variable.value, items[i]);
    }
  }

  lemma KeptUnbound(a: Run, b: Run, extra: int, variable: Option<string>, before: Table<Value>)
    requires Kept(a, b, extra)
    ensures Kept(Unbound(a, variable, before), Unbound(b, variable, before), extra)
  {
    hide CountResults, Reported, CountFinished, CountSkipped;
  }

  lemma EndsUnbound(a: Run, variable: Option<string>, before: Table<Value>, thrown: Option<Thrown>)
    requires EndsWith(a, thrown)
    ensures EndsWith(Unbound(a, variable, before), thrown)
  {
    hide Reported, TypedOf, NoRepeat, Restored;
  }

  lemma {:induction false} RoundsKeep(nested: seq<Step>, variable: Option<string>, items: seq<Value>, i: nat, n: nat,
                                      path: string, act: string, s: Setting, run: Run, before: Table<Value>)
    requires Steady(run)
    requires i <= n && (variable.Some? ==> n == |items|)
    ensures var (after, thrown) := Rounds(nested, variable, items, i, n, path, act, s, run);
      && Kept(Unbound(run, variable, before), Unbound(after, variable, before), Owed(thrown))
      && EndsWith(Unbound(after, variable, before), thrown)
    decreases nested, |nested| + 1, n - i
  {
    hide Kept, EndsWith, Walk, Unbound, Bound, RoundPath;
    if i == n {
      SameBooks(run, run);
      KeptUnbound(run, run, 0, variable, before);
      SteadyEnds(run);
      EndsUnbound(run, variable, before, None);
    } else {
      var bound := Bound(run, variable, items, i);
      BoundSteady(run, variable, items, i);
      var (after, thrown, _) := Walk(nested, 0, RoundPath(path, i), act, false, s, bound);
      WalkKeeps(nested, 0, RoundPath(path, i), act, false, s, bound);
      UnboundBound(run, variable, items, i, before);
      KeptUnbound(bound, after, Owed(thrown), variable, before);
      EndsUnbound(after, variable, before, thrown);
      if thrown.None? {
        EndsSteady(after);
        RoundsKeep(nested, variable, items, i + 1, n, path, act, s, after, before);
        var (last, out) := Rounds(nested, variable, items, i + 1, n, path, act, s, after);
        KeptCompose(Unbound(run, variable, before), Unbound(after, variable, before), Unbound(last, variable, before),
          0, Owed(out));
      }
    }
  }

  lemma {:induction false} WalkKeeps(steps: seq<Step>, i: nat, path: string, act: string, tolerate: bool, s: Setting,
                                     run: Run)
    requires Steady(run)
    requires i <= |steps|
    ensures var (after, thrown, gaveWay) := Walk(steps, i, path, act, tolerate, s, run);
      && (gaveWay ==> tolerate && thrown.None?)
      && Kept(run, after, if gaveWay then 1 else Owed(thrown))
      && EndsWith(after, thrown)
    decreases steps, |steps| - i, 0
  {
    hide Kept, EndsWith, RunOne, SkipRest, Seed, Steady;
    if i == |steps| {
      SameBooks(run, run);
      SteadyEnds(run);
    } else {
      var (after, thrown) := RunOne(steps[i], i, path, act, s, run);
      RunOneKeeps(steps[i], i, path, act, s, run);
      if thrown.None? {
        EndsSteady(after);
        WalkKeeps(steps, i + 1, path, act, tolerate, s, after);
        var (last, out, gaveWay) := Walk(steps, i + 1, path, act, tolerate, s, after);
        KeptCompose(run, after, last, 0, if gaveWay then 1 else Owed(out));
      } else if tolerate && thrown.value.StepFailed? {
        GiveWayKeeps(steps, i, path, run, after, thrown);
        SteadyEnds(SkipRest(steps, i + 1, path, Seeded(after, steps[i])));
      }
    }
  }
}
