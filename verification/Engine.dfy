/** One run from validation to verdict, and what is true of every run whatever way it ends. */
module Engine {
  import opened Common
  import opened Tables
  import opened ExprValues
  import opened Blueprint
  import opened RunModel
  import opened Execution
  import RunLaws
  import StepLaws
  import CallLaws

  datatype Program = Program(steps: seq<Step>, outputs: Option<Value>)

  datatype RunResult = RunResult(status: Status, outputs: Value, stepResults: seq<StepResult>, cause: Option<Fault>)

  /** Only `Returned` hands the caller a result; every other ending is an exception. */
  datatype Ending =
    | Refused(rejection: Rejection)
    | NotStarted(fault: Fault)
    | RunError(text: string)
    | TeardownFailed(fault: Fault)
    | OutputsFailed(fault: Fault)
    | Returned(result: RunResult)

  /** What a run did: the drivers it set up and tore down, in order, its last state, and how it ended. */
  datatype Journey = Journey(setUp: seq<string>, tornDown: seq<string>, last: Run, ending: Ending)

  const FRESH := Run([], [], [], [], [], [], [], 0)

  function Conduct(program: Program, s: Setting, check: ParamCheck): Journey {
    var rejected := Validate(s.act, program.steps, check);
    if rejected.Some? then Journey([], [], FRESH, Refused(rejected.value))
    else if s.world.aborted(0) then Journey([], [], Tick(FRESH), NotStarted(Cancelled))
    else
      var (bound, problem) := Resolve(s.act, s, Tick(FRESH));
      if problem.Some? then Journey([], [], bound, NotStarted(problem.value))
      else
        var (after, thrown, _) := RunModel.Walk(program.steps, 0, "", s.act, false, s, Emit(bound, RunStarted));
        Conclude(program, s, after, thrown)
  }

  function Cause(thrown: Thrown): Fault {
    match thrown
    case StepFailed(e) => Typed(e)
    case Raw(fault) => fault
  }

  predicate Verdict(results: seq<StepResult>) {
    exists i :: 0 <= i < |results| && results[i].status == Partial
  }

  /** Teardown first, whatever was thrown; then the verdict, the outputs, the last event. */
  function Conclude(program: Program, s: Setting, run: Run, thrown: Option<Thrown>): Journey {
    var torn := Reversed(run.drivers);
    var broken := FirstFault(torn, s, run.clock);
    var last := run.(clock := run.clock + |torn|);
    if broken.Some? then Journey(run.drivers, torn, last, TeardownFailed(broken.value))
    else if thrown.Some? && Cause(thrown.value).Foreign? then
      Journey(run.drivers, torn, last, RunError(Cause(thrown.value).text))
    else if thrown.Some? then
      var result := RunResult(Failed, Obj([]), run.results, Some(Cause(thrown.value)));
      Journey(run.drivers, torn, Emit(last, RunDone(Failed)), Returned(result))
    else
      var status := if Verdict(run.results) then Partial else Success;
      match (if program.outputs.Some? then Render(program.outputs.value, s, last) else Ok(Obj([])))
      case Err(fault) => Journey(run.drivers, torn, last, OutputsFailed(fault))
      case Ok(outputs) =>
        Journey(run.drivers, torn, Emit(last, RunDone(status)),
          Returned(RunResult(status, outputs, run.results, None)))
  }

  /** The engine: binds the root driver, walks the steps, tears down on every path, then reads the verdict. */
  method RunBlueprint(program: Program, s: Setting, check: ParamCheck) returns (j: Journey)
    ensures j == Conduct(program, s, check)
  {
    hide Validate, RunModel.Walk, Resolve, Reversed, FirstFault, Render, Verdict, Conclude;
    var rejected := Validate(s.act, program.steps, check);
    if rejected.Some? {
      return Journey([], [], FRESH, Refused(rejected.value));
    }
    if s.world.aborted(0) {
      return Journey([], [], Tick(FRESH), NotStarted(Cancelled));
    }
    var manager := new DriverManager();
    var problem, clock := manager.ResolveDriver(s.act, s, Tick(FRESH), 1);
    if problem.Some? {
      return Journey([], [], Tick(FRESH).(drivers := manager.drivers, clock := clock), NotStarted(problem.value));
    }
    var executor := new Executor(s, manager, clock, [RunStarted]);
    assert [] + [RunStarted] == [RunStarted];
    assert executor.State() == Emit(Resolve(s.act, s, Tick(FRESH)).0, RunStarted);
    var thrown, _ := executor.Walk(program.steps, "", s.act, false);
    j := Finish(program, s, manager, executor.State(), thrown);
  }

  method Finish(program: Program, s: Setting, manager: DriverManager, run: Run, thrown: Option<Thrown>)
    returns (j: Journey)
    requires run.drivers == manager.drivers
    modifies manager
    ensures manager.drivers == []
    ensures j == Conclude(program, s, run, thrown)
  {
    hide Reversed, FirstFault, Render, Verdict;
    var status, cause: Option<Fault> := Success, None;
    if thrown.Some? {
      status, cause := Failed, Some(Cause(thrown.value));
    }
    var setUp := manager.drivers;
    var torn, broken := manager.TeardownAll(s, run.clock);
    var last := run.(clock := run.clock + |torn|);
    if broken.Some? {
      return Journey(setUp, torn, last, TeardownFailed(broken.value));
    }
    if cause.Some? && cause.value.Foreign? {
      return Journey(setUp, torn, last, RunError(cause.value.text));
    }
    if status == Success && Verdict(run.results) {
      status := Partial;
    }
    var outputs: Result<Value, Fault> := Ok(Obj([]));
    if status != Failed && program.outputs.Some? {
      outputs := Render(program.outputs.value, s, last);
    }
    if outputs.Err? {
      return Journey(setUp, torn, last, OutputsFailed(outputs.error));
    }
    return Journey(setUp, torn, Emit(last, RunDone(status)),
      Returned(RunResult(status, outputs.value, run.results, cause)));
  }

  // What holds of every run.

  lemma {:induction false} ReversedNoRepeat(acts: seq<string>)
    requires RunLaws.NoRepeat(acts)
    ensures RunLaws.NoRepeat(Reversed(acts))
  {
    forall i, j | 0 <= i < j < |acts| ensures Reversed(acts)[i] != Reversed(acts)[j] {
      assert Reversed(acts)[i] == acts[|acts| - 1 - i] && Reversed(acts)[j] == acts[|acts| - 1 - j];
    }
  }

  lemma {:induction false} SomePartial(results: seq<StepResult>)
    ensures Verdict(results) <==> RunLaws.CountResults(results, Partial) > 0
  {
    if results != [] {
      var n := |results| - 1;
      SomePartial(results[..n]);
      if Verdict(results) {
        var i :| 0 <= i < |results| && results[i].status == Partial;
        assert i < n ==> results[..n][i].status == Partial;
      }
      if Verdict(results[..n]) {
        var i :| 0 <= i < n && results[..n][i].status == Partial;
        assert results[i].status == Partial;
      }
    }
  }

  /** The steps of an accepted program, from the state the root driver leaves. */
  lemma WalkFromStart(program: Program, s: Setting, check: ParamCheck, bound: Run)
    requires Validate(s.act, program.steps, check).None?
    requires Resolve(s.act, s, Tick(FRESH)) == (bound, None)
    ensures var (after, thrown, gaveWay) := RunModel.Walk(program.steps, 0, "", s.act, false, s, Emit(bound, RunStarted));
      && !gaveWay && after.scope == []
      && RunLaws.EndsWith(after, thrown) && CallLaws.Lawful(after)
      && RunLaws.Debt(after) == RunLaws.Owed(thrown)
      && RunLaws.Closing(after) == 0 && RunLaws.Skipping(after) == 0
  {
    hide RunModel.Walk, ValidateAll;
    var start := Emit(bound, RunStarted);
    RunLaws.EmitKeepsBooks(bound, RunStarted);
    StepLaws.WalkKeeps(program.steps, 0, "", s.act, false, s, start);
    CallLaws.WalkLawful(program.steps, 0, "", s.act, false, s, start, check);
  }

  /**
   * The drivers: each one whose setup completed is torn down exactly once, newest first, on every
   * ending, failing teardowns included; no leaf call went past the validator; no loop variable is left.
   */
  lemma EveryEndingCleansUp(program: Program, s: Setting, check: ParamCheck)
    ensures var j := Conduct(program, s, check);
      && RunLaws.NoRepeat(j.setUp) && RunLaws.NoRepeat(j.tornDown)
      && j.setUp == j.last.drivers && j.tornDown == Reversed(j.setUp)
      && CallLaws.Lawful(j.last) && j.last.scope == []
  {
    hide RunModel.Walk, Validate, Render, Verdict, FirstFault, CallLaws.Granted;
    if Validate(s.act, program.steps, check).None? && !s.world.aborted(0) {
      var (bound, problem) := Resolve(s.act, s, Tick(FRESH));
      if problem.None? {
        WalkFromStart(program, s, check, bound);
        ReversedNoRepeat(RunModel.Walk(program.steps, 0, "", s.act, false, s, Emit(bound, RunStarted)).0.drivers);
      }
    }
  }

  /** The result a caller reads agrees with the events it saw. */
  ghost predicate Accounts(last: Run, r: RunResult) {
    && r.stepResults == last.results
    && |RunLaws.Reported(last.events)|
       == RunLaws.CountResults(r.stepResults, Partial) + (if r.cause.Some? && r.cause.value.Typed? then 1 else 0)
    && RunLaws.CountFinished(last.events)
       == RunLaws.CountResults(r.stepResults, Success) + RunLaws.CountResults(r.stepResults, Partial)
    && RunLaws.CountSkipped(last.events) == RunLaws.CountResults(r.stepResults, Skipped)
  }

  /** A failed run names what stopped it; a cancelled one is failed, whatever block it was inside. */
  ghost predicate CauseIsLast(last: Run, r: RunResult) {
    && (r.status == Failed <==> r.cause.Some?)
    && (r.status == Partial <==> r.cause.None? && exists i :: 0 <= i < |r.stepResults| && r.stepResults[i].status == Partial)
    && (r.status == Failed || r.status == Partial || r.status == Success)
    && (r.cause == Some(Cancelled) <==> Cancelled in last.faults)
    && (r.cause.Some? ==> !r.cause.value.Foreign? && last.faults != [] && last.faults[|last.faults| - 1] == r.cause.value)
    && RunLaws.Reported(last.events) == RunLaws.TypedOf(last.faults)
  }

  lemma ReportedDone(run: Run, status: Status)
    ensures RunLaws.Kept(run, Emit(run, RunDone(status)), 0)
    ensures RunLaws.Reported(Emit(run, RunDone(status)).events) == RunLaws.Reported(run.events)
  {
    RunLaws.EmitKeepsBooks(run, RunDone(status));
  }

  lemma {:induction false} TypedFaultsOnly(faults: seq<Fault>)
    requires RunLaws.Quiet(faults)
    ensures Cancelled !in faults
  {
  }

  lemma ConcludeAccounts(program: Program, s: Setting, run: Run, thrown: Option<Thrown>)
    requires RunLaws.EndsWith(run, thrown)
    requires RunLaws.Debt(run) == RunLaws.Owed(thrown) && RunLaws.Closing(run) == 0 && RunLaws.Skipping(run) == 0
    ensures var j := Conclude(program, s, run, thrown);
      j.ending.Returned? ==> Accounts(j.last, j.ending.result)
  {
    hide RunLaws.Reported, RunLaws.TypedOf, RunLaws.CountResults, RunLaws.CountFinished, RunLaws.CountSkipped,
      Render, FirstFault, Verdict, Reversed, RunLaws.NoRepeat;
    var j := Conclude(program, s, run, thrown);
    if j.ending.Returned? {
      var last := run.(clock := run.clock + |Reversed(run.drivers)|);
      ReportedDone(last, j.ending.result.status);
    }
  }

  lemma ConcludeCause(program: Program, s: Setting, run: Run, thrown: Option<Thrown>)
    requires RunLaws.EndsWith(run, thrown)
    ensures var j := Conclude(program, s, run, thrown);
      j.ending.Returned? ==> CauseIsLast(j.last, j.ending.result)
  {
    hide RunLaws.Reported, RunLaws.TypedOf, Render, FirstFault, Reversed, RunLaws.NoRepeat;
    var j := Conclude(program, s, run, thrown);
    if j.ending.Returned? {
      var last := run.(clock := run.clock + |Reversed(run.drivers)|);
      ReportedDone(last, j.ending.result.status);
      if thrown.None? || thrown.value.StepFailed? {
        TypedFaultsOnly(run.faults);
      } else {
        TypedFaultsOnly(run.faults[..|run.faults| - 1]);
      }
    }
  }

  /** Every run that returns a result: the books balance and the verdict is the right one. */
  lemma EveryResultAccounts(program: Program, s: Setting, check: ParamCheck)
    requires Conduct(program, s, check).ending.Returned?
    ensures var j := Conduct(program, s, check);
      Accounts(j.last, j.ending.result) && CauseIsLast(j.last, j.ending.result)
  {
    hide RunModel.Walk, Validate, Accounts, CauseIsLast, Resolve, RunLaws.EndsWith, RunLaws.Debt, RunLaws.Closing,
      RunLaws.Skipping, CallLaws.Lawful, Render, FirstFault, Verdict, Reversed, Emit;
    var (bound, problem) := Resolve(s.act, s, Tick(FRESH));
    WalkFromStart(program, s, check, bound);
    var (after, thrown, _) := RunModel.Walk(program.steps, 0, "", s.act, false, s, Emit(bound, RunStarted));
    ConcludeAccounts(program, s, after, thrown);
    ConcludeCause(program, s, after, thrown);
  }

  /** A run that was not stopped is a plain success exactly when no error was ever reported. */
  lemma SuccessIsSilent(program: Program, s: Setting, check: ParamCheck)
    requires Conduct(program, s, check).ending.Returned?
    ensures var j := Conduct(program, s, check);
      j.ending.result.cause.None? ==>
        (j.ending.result.status == Success <==> RunLaws.Reported(j.last.events) == [])
  {
    hide Conduct, RunLaws.Reported, RunLaws.CountResults;
    EveryResultAccounts(program, s, check);
    SomePartial(Conduct(program, s, check).ending.result.stepResults);
  }

  /** The run was cancelled before it began, or the driver of its act did not come up. */
  predicate NotReady(s: Setting, fault: Fault) {
    if s.world.aborted(0) then fault == Cancelled
    else if s.act !in s.world.registered then fault == Typed(NoDriver(s.act))
    else s.world.setup(s.act, 1) == Some(fault)
  }

  /** The `k`-th driver to go is the first that failed to, with that fault; they go one tick after another. */
  predicate FailsFirst(torn: seq<string>, k: nat, s: Setting, clock: nat, fault: Fault) {
    && k < |torn| && s.world.teardown(torn[k], clock + k) == Some(fault)
    && forall i: nat :: i < k ==> s.world.teardown(torn[i], clock + i).None?
  }

  lemma {:induction false} FaultIsFirst(torn: seq<string>, s: Setting, clock: nat) returns (k: nat)
    requires FirstFault(torn, s, clock).Some?
    ensures FailsFirst(torn, k, s, clock, FirstFault(torn, s, clock).value)
  {
    var n := |torn| - 1;
    if FirstFault(torn[..n], s, clock).Some? {
      k := FaultIsFirst(torn[..n], s, clock);
    } else {
      k := n;
      NoFault(torn[..n], s, clock);
    }
  }

  lemma {:induction false} NoFault(torn: seq<string>, s: Setting, clock: nat)
    requires FirstFault(torn, s, clock).None?
    ensures forall i: nat :: i < |torn| ==> s.world.teardown(torn[i], clock + i).None?
  {
    if torn != [] {
      var n := |torn| - 1;
      NoFault(torn[..n], s, clock);
      assert forall i: nat :: i < n ==> torn[..n][i] == torn[i];
    }
  }

  /**
   * A returned result carries the outputs the Blueprint asks for, rendered when every step is done, and none when the
   * run failed; an error of no known kind is what the caller is told instead.
   */
  lemma OutputsAreAsked(program: Program, s: Setting, check: ParamCheck)
    ensures var j := Conduct(program, s, check);
      match j.ending
      case Returned(r) =>
        && r.outputs == (if r.cause.Some? || program.outputs.None? then Obj([])
                         else Render(program.outputs.value, s, j.last).value)
        && (r.cause.None? && program.outputs.Some? ==> Render(program.outputs.value, s, j.last).Ok?)
        && j.last.events != [] && j.last.events[|j.last.events| - 1] == RunDone(r.status)
      case OutputsFailed(fault) =>
        program.outputs.Some? && Render(program.outputs.value, s, j.last) == Err(fault)
      case RunError(text) => j.last.faults != [] && j.last.faults[|j.last.faults| - 1] == Foreign(text)
      case Refused(rejection) => Validate(s.act, program.steps, check) == Some(rejection) && j.setUp == []
      case NotStarted(fault) => NotReady(s, fault) && j.setUp == []
      case TeardownFailed(fault) => exists clock: nat, k: nat :: FailsFirst(j.tornDown, k, s, clock, fault)
  {
    hide RunModel.Walk, Validate, Verdict, FirstFault, Reversed, RunLaws.Reported, RunLaws.TypedOf, RunLaws.Debt,
      RunLaws.Closing, RunLaws.Skipping, CallLaws.Lawful, FailsFirst;
    if Validate(s.act, program.steps, check).None? && !s.world.aborted(0) {
      var (bound, problem) := Resolve(s.act, s, Tick(FRESH));
      if problem.None? {
        WalkFromStart(program, s, check, bound);
        var after := RunModel.Walk(program.steps, 0, "", s.act, false, s, Emit(bound, RunStarted)).0;
        var torn := Reversed(after.drivers);
        if FirstFault(torn, s, after.clock).Some? {
          var k := FaultIsFirst(torn, s, after.clock);
          assert FailsFirst(torn, k, s, after.clock, FirstFault(torn, s, after.clock).value);
        }
      }
    }
  }
}
