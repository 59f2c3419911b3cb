/** The executor as it runs: fields updated in place, loops over steps and rounds, each method tied to RunModel. */
module Execution {
  import opened Common
  import opened Tables
  import opened ExprValues
  import opened Blueprint
  import opened RunModel
  import ExprEval

  /** Drivers by act, in the order of their first use. */
  class DriverManager {
    var drivers: seq<string>

    constructor ()
      ensures drivers == []
    {
      drivers := [];
    }

    /** The live driver of an act, set up on first use; a failing setup keeps nothing. */
    method ResolveDriver(act: string, s: Setting, ghost run: Run, clock: nat)
      returns (problem: Option<Fault>, later: nat)
      requires run.drivers == drivers && run.clock == clock
      modifies this
      ensures Resolve(act, s, run) == (run.(drivers := drivers, clock := later), problem)
    {
      problem, later := None, clock;
      if act in drivers {
        return;
      }
      if act !in s.world.registered {
        return Some(Typed(NoDriver(act))), clock;
      }
      problem, later := s.world.setup(act, clock), clock + 1;
      if problem.None? {
        drivers := drivers + [act];
      }
    }

    /** Tears every driver down, newest first; the first fault is reported once all have gone. */
    method TeardownAll(s: Setting, clock: nat) returns (torn: seq<string>, first: Option<Fault>)
      modifies this
      ensures drivers == []
      ensures torn == Reversed(old(drivers))
      ensures first == FirstFault(torn, s, clock)
    {
      var live := Reversed(drivers);
      drivers := [];
      torn, first := [], None;
      for i := 0 to |live|
        invariant drivers == []
        invariant torn == live[..i]
        invariant first == FirstFault(live[..i], s, clock)
      {
        var fault := s.world.teardown(live[i], clock + i);
        torn := torn + [live[i]];
        if first.None? {
          first := fault;
        }
        assert live[..i + 1][..i] == live[..i];
      }
      assert live[..|live|] == live;
    }
  }

  function Reversed(acts: seq<string>): (r: seq<string>)
    ensures |r| == |acts|
    ensures forall i :: 0 <= i < |r| ==> r[i] == acts[|acts| - 1 - i]
  {
    if acts == [] then [] else [acts[|acts| - 1]] + Reversed(acts[..|acts| - 1])
  }

  /** The first teardown that failed, in the order the drivers went. */
  function FirstFault(torn: seq<string>, s: Setting, clock: nat): Option<Fault> {
    if torn == [] then None
    else
      var n := |torn| - 1;
      var earlier := FirstFault(torn[..n], s, clock);
      if earlier.Some? then earlier else s.world.teardown(torn[n], clock + n)
  }

  class Executor {
    const s: Setting
    const manager: DriverManager
    var results: seq<StepResult>
    var events: seq<Event>
    var outputs: Table<Table<Value>>
    var scope: Table<Value>
    var calls: seq<Call>
    var faults: seq<Fault>
    var clock: nat

    constructor (s: Setting, manager: DriverManager, clock: nat, events: seq<Event>)
      ensures this.s == s && this.manager == manager
      ensures State() == Run([], events, [], [], manager.drivers, [], [], clock)
    {
      this.s, this.manager, this.clock := s, manager, clock;
      this.events := events;
      results, outputs, scope, calls, faults := [], [], [], [], [];
    }

    function State(): Run
      reads this, manager
    {
      Run(results, events, outputs, scope, manager.drivers, calls, faults, clock)
    }

    /** Steps in order; with `tolerate`, a recorded failure ends the list instead of the run. */
    method Walk(steps: seq<Step>, path: string, act: string, tolerate: bool)
      returns (thrown: Option<Thrown>, gaveWay: bool)
      modifies this, manager
      ensures (State(), thrown, gaveWay) == RunModel.Walk(steps, 0, path, act, tolerate, s, old(State()))
      decreases steps, |steps| + 1, 0
    {
      for i := 0 to |steps|
        invariant RunModel.Walk(steps, i, path, act, tolerate, s, State())
               == RunModel.Walk(steps, 0, path, act, tolerate, s, old(State()))
      {
        thrown := RunOne(steps[i], i, path, act);
        if thrown.Some? {
          if !tolerate || !thrown.value.StepFailed? {
            return thrown, false;
          }
          SeedBlockOutputs(steps[i]);
          SkipRest(steps, i + 1, path);
          return None, true;
        }
      }
      return None, false;
    }

    method RunOne(step: Step, index: nat, path: string, inherited: string) returns (thrown: Option<Thrown>)
      modifies this, manager
      ensures (State(), thrown) == RunModel.RunOne(step, index, path, inherited, s, old(State()))
      decreases step, 1, 0
    {
      var now := clock;
      clock := clock + 1;
      if s.world.aborted(now) {
        faults := faults + [Cancelled];
        return Some(Raw(Cancelled));
      }
      var attempt := Try(step, index, path, EffectiveAct(step, inherited));
      thrown := Settle(step, index, path, attempt);
    }

    method Try(step: Step, index: nat, path: string, act: string) returns (attempt: Attempt)
      modifies this, manager
      ensures (State(), attempt) == RunModel.Try(step, index, path, act, s, old(State()))
      decreases step, 0, 1
    {
      var guard := Guarded(step, s, State());
      if guard.Err? {
        faults := faults + [guard.error];
        return Broke(Raw(guard.error));
      }
      if !guard.value {
        return NotTaken;
      }
      events := events + [StepStarted(DisplayId(step, index, path))];
      if IsFlow(step.action) {
        attempt := RunFlow(step, StepPath(step, index, path), act);
      } else {
        attempt := RunLeaf(step, act);
      }
    }

    /** Publishes and records what the attempt ended with, and says what leaves the step. */
    method Settle(step: Step, index: nat, path: string, attempt: Attempt) returns (thrown: Option<Thrown>)
      modifies this
      ensures (State(), thrown) == RunModel.Settle(step, index, path, old(State()), attempt)
    {
      var id := DisplayId(step, index, path);
      match attempt {
        case NotTaken =>
          results := results + [SkippedResult(id, step.action)];
          events := events + [StepSkipped(id, step.guard)];
          thrown := None;
        case Finished(out, status) =>
          outputs := Put(outputs, OutputKey(step, index, path), out);
          results := results + [StepResult(id, step.action, status, out, None)];
          events := events + [StepFinished(id)];
          thrown := None;
        case Broke(StepFailed(e)) =>
          results := results + [StepResult(id, step.action, Failed, [], Some(e))];
          thrown := Some(StepFailed(e));
        case Broke(Raw(fault)) =>
          if !fault.Typed? {
            return Some(Raw(fault));
          }
          results := results + [StepResult(id, step.action, Failed, [], Some(fault.error))];
          events := events + [ErrorEvent(id, fault.error)];
          thrown := Some(StepFailed(fault.error));
      }
    }

    method RunLeaf(step: Step, act: string) returns (attempt: Attempt)
      modifies this, manager
      ensures (State(), attempt) == CallLeaf(step, act, s, old(State()))
    {
      ghost var before := State();
      var problem, later := manager.ResolveDriver(act, s, before, clock);
      clock := later;
      assert (State(), problem) == Resolve(act, s, before);
      if problem.Some? {
        faults := faults + [problem.value];
        return Broke(Raw(problem.value));
      }
      var answer := s.world.leaf(step, act, TemplateContext(s, State()), clock);
      clock := clock + 1;
      calls := calls + [Call(act, step.action)];
      events := events + Chatter(answer.chatter);
      if answer.outcome.Err? {
        faults := faults + [answer.outcome.error];
        return Broke(Raw(answer.outcome.error));
      }
      attempt := Finished(answer.outcome.value, Success);
    }

    method SkipRest(steps: seq<Step>, base: nat, path: string)
      requires base <= |steps|
      modifies this
      ensures State() == RunModel.SkipRest(steps, base, path, old(State()))
    {
      for i := base to |steps|
        invariant RunModel.SkipRest(steps, i, path, State()) == RunModel.SkipRest(steps, base, path, old(State()))
      {
        var id := DisplayId(steps[i], i, path);
        SeedBlockOutputs(steps[i]);
        results := results + [SkippedResult(id, steps[i].action)];
        events := events + [StepSkipped(id, None)];
      }
    }

    // Seeding.

    method SeedBlockOutputs(step: Step)
      modifies this
      ensures State() == Seeded(old(State()), step)
      decreases step, 1
    {
      PublishEmpty(step.id);
      var fields := NestedFields(step);
      SeedByFields(old(outputs), step);
      assert fields[0..] == fields;
      for i := 0 to |fields|
        invariant SeedFields(outputs, fields[i..]) == Seed(old(outputs), step)
        invariant State() == old(State()).(outputs := outputs)
      {
        SeedNested(fields[i]);
        assert fields[i..][1..] == fields[i + 1..];
      }
      assert fields[|fields|..] == [];
    }

    method PublishEmpty(id: Option<string>)
      modifies this
      ensures State() == old(State()).(outputs := SeedId(old(outputs), id))
    {
      if id.Some? && id.value != "" && Find(outputs, id.value).None? {
        outputs := Put(outputs, id.value, []);
      }
    }

    method SeedNested(field: Field)
      modifies this
      ensures State() == old(State()).(outputs := SeedField(old(outputs), field))
      decreases field, 2
    {
      if field.ListOf? {
        SeedList(field.list);
      } else if field.BadList? {
        SeedList(field.before);
        PublishEmpty(field.first.id);
        var entries := field.after;
        for i := 0 to |entries|
          invariant SeedEntries(outputs, entries[i..]) == SeedField(old(outputs), field)
          invariant State() == old(State()).(outputs := outputs)
        {
          match entries[i] {
            case Stray(misfit) => PublishEmpty(misfit.id);
            case Nested(step) => SeedBlockOutputs(step);
          }
          assert entries[i..][1..] == entries[i + 1..];
        }
        assert entries[|entries|..] == [];
      }
    }

    method SeedList(list: seq<Step>)
      modifies this
      ensures State() == old(State()).(outputs := SeedAll(old(outputs), list))
      decreases list, 3
    {
      for i := 0 to |list|
        invariant SeedAll(outputs, list[i..]) == SeedAll(old(outputs), list)
        invariant State() == old(State()).(outputs := outputs)
      {
        SeedBlockOutputs(list[i]);
        assert list[i..][1..] == list[i + 1..];
      }
      assert list[|list|..] == [];
    }

    // Flow actions.

    method RunFlow(step: Step, path: string, act: string) returns (attempt: Attempt)
      modifies this, manager
      ensures (State(), attempt) == RunModel.RunFlow(step, path, act, s, old(State()))
      decreases step, 0, 0
    {
      var plan := PlanFlow(step, s, State());
      if plan.Err? {
        faults := faults + [plan.error];
        return Broke(Raw(plan.error));
      }
      match plan.value {
        case NoBranch => attempt := Finished([("branch", Null)], Success);
        case Branch(name, nested) =>
          var thrown, _ := Walk(nested, path, act, false);
          attempt := Ended(thrown, [("branch", Str(name))], Success);
        case Times(n, nested) =>
          var thrown := Repeat(nested, n, path, act);
          attempt := Ended(thrown, [("iterations", Number(n))], Success);
        case Each(variable, items, nested) =>
          var thrown := ForEach(nested, variable, items, path, act);
          attempt := Ended(thrown, [("iterations", Number(|items|))], Success);
        case Tolerate(nested) =>
          var thrown, gaveWay := Walk(nested, path, act, true);
          attempt := Ended(thrown, [], if gaveWay then Partial else Success);
      }
    }

    method Repeat(nested: seq<Step>, n: nat, path: string, act: string) returns (thrown: Option<Thrown>)
      modifies this, manager
      ensures (State(), thrown) == Rounds(nested, None, [], 0, n, path, act, s, old(State()))
      decreases nested, |nested| + 2
    {
      for i := 0 to n
        invariant Rounds(nested, None, [], i, n, path, act, s, State())
               == Rounds(nested, None, [], 0, n, path, act, s, old(State()))
      {
        var gaveWay;
        thrown, gaveWay := Walk(nested, RoundPath(path, i), act, false);
        if thrown.Some? {
          return;
        }
      }
      thrown := None;
    }

    /** The variable is saved before the first round and restored however the rounds end. */
    method ForEach(nested: seq<Step>, variable: string, items: seq<Value>, path: string, act: string)
      returns (thrown: Option<Thrown>)
      modifies this, manager
      ensures var (after, out) := Rounds(nested, Some(variable), items, 0, |items|, path, act, s, old(State()));
        thrown == out && State() == after.(scope := Restored(after.scope, variable, old(scope)))
      decreases nested, |nested| + 2
    {
      var previous := Find(scope, variable);
      thrown := None;
      var i := 0;
      while i < |items| && thrown.None?
        invariant i <= |items|
        invariant thrown.None? ==>
          Rounds(nested, Some(variable), items, i, |items|, path, act, s, State())
          == Rounds(nested, Some(variable), items, 0, |items|, path, act, s, old(State()))
        invariant thrown.Some? ==>
          (State(), thrown) == Rounds(nested, Some(variable), items, 0, |items|, path, act, s, old(State()))
      {
        ghost var here := State();
        scope := Put(scope, variable, items[i]);
        assert State() == Bound(here, Some(variable), items, i);
        var gaveWay;
        thrown, gaveWay := Walk(nested, RoundPath(path, i), act, false);
        i := i + 1;
      }
      if previous.Some? {
        scope := Put(scope, variable, previous.value);
      } else {
        scope := Delete(scope, variable);
      }
    }
  }

  /** Several fields seeded in turn. */
  function SeedFields(outputs: Table<Table<Value>>, fields: seq<Field>): Table<Table<Value>>
    decreases |fields|
  {
    if fields == [] then outputs else SeedFields(SeedField(outputs, fields[0]), fields[1..])
  }

  lemma OneField(outputs: Table<Table<Value>>, field: Field)
    ensures SeedFields(outputs, [field]) == SeedField(outputs, field)
  {
    hide SeedField;
    assert [field][1..] == [];
  }

  lemma SeedByFields(outputs: Table<Table<Value>>, step: Step)
    ensures Seed(outputs, step) == SeedFields(SeedId(outputs, step.id), NestedFields(step))
  {
    hide SeedField, SeedId;
    var fields := NestedFields(step);
    var own := SeedId(outputs, step.id);
    if step.action == "if" {
      assert fields[1..] == [step.elseSteps];
      OneField(SeedField(own, step.thenSteps), step.elseSteps);
    } else if IsFlow(step.action) {
      OneField(own, step.steps);
    }
  }
}
