/**
 * What a run is: its state, the world that answers it, and the meaning of every step action.
 *
 * A thrown error is a value: `Raw` as it was first thrown, `StepFailed` once a step has recorded
 * and reported it. The state keeps, beside what the program stores, the history the properties
 * speak of: the leaf calls handed to drivers and every error at the place it first appeared.
 */
module RunModel {
  import opened Common
  import opened Tables
  import opened ExprValues
  import opened Blueprint
  import ExprEval
  import ExprScanning
  import Numerals

  datatype Error =
    | MissingParameter(action: string, parameter: string)
    | NotAStepList(action: string, key: string)
    | InvalidStep(action: string, key: string, index: nat)
    | ItemsNotAList
    | BadLoopVariable
    | ReservedLoopVariable(name: string)
    | NotAnInteger
    | NegativeTimes(times: int)
    | NoDriver(act: string)
    | Other(code: nat)

  /** `Typed` is any error of the engine's own family but cancellation; `Foreign` is anything else. */
  datatype Fault = Typed(error: Error) | Cancelled | Foreign(text: string)

  datatype Thrown = Raw(fault: Fault) | StepFailed(original: Error)

  datatype Status = Success | Failed | Partial | Skipped

  datatype StepResult = StepResult(
    id: Option<string>, action: string, status: Status, outputs: Table<Value>, error: Option<Error>)

  datatype Event =
    | StepStarted(id: Option<string>)
    | StepFinished(id: Option<string>)
    | StepSkipped(id: Option<string>, guard: Option<Value>)
    | ErrorEvent(id: Option<string>, error: Error)
    | FromDriver(text: string)
    | RunStarted
    | RunDone(status: Status)

  datatype Call = Call(act: string, action: string)

  datatype Run = Run(
    results: seq<StepResult>,
    events: seq<Event>,
    outputs: Table<Table<Value>>,
    scope: Table<Value>,
    drivers: seq<string>,
    calls: seq<Call>,
    faults: seq<Fault>,
    clock: nat)

  datatype LeafAnswer = LeafAnswer(chatter: seq<string>, outcome: Result<Table<Value>, Fault>)

  /** Everything outside the executor. The clock makes each answer independent of the previous ones. */
  datatype World = World(
    host: Host,
    aborted: nat -> bool,
    render: (Value, ExprEval.Context, nat) -> Result<Value, Fault>,
    registered: set<string>,
    setup: (string, nat) -> Option<Fault>,
    leaf: (Step, string, ExprEval.Context, nat) -> LeafAnswer,
    teardown: (string, nat) -> Option<Fault>)

  /** What does not change during a run. */
  datatype Setting = Setting(
    act: string, inputs: Table<Value>, secrets: Table<Value>, vars: Table<Value>, env: Table<Value>, world: World)

  const RESERVED := {"inputs", "secrets", "vars", "env", "steps"}

  // The template context: the five reserved tables, then the loop variables.

  function OutputTable(outputs: Table<Table<Value>>): Table<Value> {
    if outputs == [] then [] else [(outputs[0].0, Obj(outputs[0].1))] + OutputTable(outputs[1..])
  }

  function Merge(base: Table<Value>, over: Table<Value>): Table<Value>
    decreases |over|
  {
    if over == [] then base else Merge(Put(base, over[0].0, over[0].1), over[1..])
  }

  function ReservedTables(s: Setting, run: Run): Table<Value> {
    [("inputs", Obj(s.inputs)), ("secrets", Obj(s.secrets)), ("vars", Obj(s.vars)), ("env", Obj(s.env)),
     ("steps", Obj(OutputTable(run.outputs)))]
  }

  function TemplateContext(s: Setting, run: Run): ExprEval.Context {
    Merge(ReservedTables(s, run), run.scope)
  }

  function Render(template: Value, s: Setting, run: Run): Result<Value, Fault> {
    s.world.render(template, TemplateContext(s, run), run.clock)
  }

  // Paths.

  function Join(path: string, key: string): string {
    if path == "" then key else path + "." + key
  }

  function StepPath(step: Step, index: nat, path: string): string {
    Join(path, if step.id.Some? then step.id.value else "_step_" + Numerals.Decimal(index))
  }

  /** Root steps keep their bare id; nested steps show their whole path. */
  function DisplayId(step: Step, index: nat, path: string): Option<string> {
    if path == "" then step.id else Some(StepPath(step, index, path))
  }

  function OutputKey(step: Step, index: nat, path: string): string {
    if step.id.Some? then step.id.value else StepPath(step, index, path)
  }

  function RoundPath(path: string, i: nat): string {
    path + "[" + Numerals.Decimal(i) + "]"
  }

  // Recording.

  function Record(run: Run, entry: StepResult, event: Event): Run {
    run.(results := run.results + [entry], events := run.events + [event])
  }

  function Emit(run: Run, event: Event): Run {
    run.(events := run.events + [event])
  }

  function Raise(run: Run, fault: Fault): Run {
    run.(faults := run.faults + [fault])
  }

  function Tick(run: Run): Run {
    run.(clock := run.clock + 1)
  }

  function Chatter(texts: seq<string>): seq<Event> {
    seq(|texts|, i requires 0 <= i < |texts| => FromDriver(texts[i]))
  }

  // Giving way: what an `optional` block publishes and records for the steps it will not attempt.

  function SeedId(outputs: Table<Table<Value>>, id: Option<string>): Table<Table<Value>> {
    if id.Some? && id.value != "" && Find(outputs, id.value).None? then Put(outputs, id.value, []) else outputs
  }

  function Seed(outputs: Table<Table<Value>>, step: Step): Table<Table<Value>>
    decreases step, 1
  {
    var own := SeedId(outputs, step.id);
    if step.action == "if" then SeedField(SeedField(own, step.thenSteps), step.elseSteps)
    else if IsFlow(step.action) then SeedField(own, step.steps)
    else own
  }

  function SeedField(outputs: Table<Table<Value>>, field: Field): Table<Table<Value>>
    decreases field, 2
  {
    match field
    case ListOf(list) => SeedAll(outputs, list)
    case BadList(before, first, after) => SeedEntries(SeedId(SeedAll(outputs, before), first.id), after)
    case _ => outputs
  }

  function SeedAll(outputs: Table<Table<Value>>, steps: seq<Step>): Table<Table<Value>>
    decreases steps, 3
  {
    if steps == [] then outputs else SeedAll(Seed(outputs, steps[0]), steps[1..])
  }

  function SeedEntries(outputs: Table<Table<Value>>, entries: seq<Entry>): Table<Table<Value>>
    decreases entries, 3
  {
    if entries == [] then outputs else SeedEntries(SeedEntry(outputs, entries[0]), entries[1..])
  }

  function SeedEntry(outputs: Table<Table<Value>>, entry: Entry): Table<Table<Value>>
    decreases entry, 2
  {
    match entry
    case Stray(misfit) => SeedId(outputs, misfit.id)
    case Nested(step) => Seed(outputs, step)
  }

  function Seeded(run: Run, step: Step): Run {
    run.(outputs := Seed(run.outputs, step))
  }

  function SkippedResult(id: Option<string>, action: string): StepResult {
    StepResult(id, action, Skipped, [], None)
  }

  /** Every remaining step keeps the index it has in its block. */
  function SkipRest(steps: seq<Step>, i: nat, path: string, run: Run): Run
    requires i <= |steps|
    decreases |steps| - i
  {
    if i == |steps| then run
    else
      var id := DisplayId(steps[i], i, path);
      SkipRest(steps, i + 1, path,
        Record(Seeded(run, steps[i]), SkippedResult(id, steps[i].action), StepSkipped(id, None)))
  }

  // What a flow step asks for, before any nested step runs.

  datatype Plan =
    | NoBranch
    | Branch(name: string, nested: seq<Step>)
    | Times(rounds: nat, nested: seq<Step>)
    | Each(variable: string, items: seq<Value>, nested: seq<Step>)
    | Tolerate(nested: seq<Step>)

  /** The nested steps of one list field, or the error of the first entry that is no step. */
  function NestedSteps(field: Field, action: string, key: string): (r: Result<seq<Step>, Error>)
    ensures r.Ok? ==> field == ListOf(r.value)
  {
    match field
    case ListOf(list) => Ok(list)
    case BadList(before, _, _) => Err(InvalidStep(action, key, |before|))
    case _ => Err(NotAStepList(action, key))
  }

  predicate IsName(s: string) {
    s != "" && !Numerals.IsDigit(s[0]) && forall i :: 0 <= i < |s| ==> IsNameChar(s[i])
  }

  predicate IsNameChar(c: char) {
    'a' <= c <= 'z' || 'A' <= c <= 'Z' || c == '_' || Numerals.IsDigit(c)
  }

  /** An integer, or the decimal text of one with surrounding space. */
  function CoerceTimes(v: Value): Result<nat, Error> {
    match v
    case Num(n) => if IsInteger(n) then NonNegative(n.Floor) else Err(NotAnInteger)
    case Str(text) =>
      var t := Trimmed(text);
      var signed := t != "" && (t[0] == '+' || t[0] == '-');
      var digits := if signed then t[1..] else t;
      if digits == "" || !Numerals.AllDigits(digits) then Err(NotAnInteger)
      else
        var n: int := Numerals.NumeralValue(digits);
        NonNegative(if t[0] == '-' then -n else n)
    case _ => Err(NotAnInteger)
  }

  function NonNegative(n: int): Result<nat, Error> {
    if n < 0 then Err(NegativeTimes(n)) else Ok(n)
  }

  function Lift<T>(r: Result<T, Error>): Result<T, Fault> {
    match r
    case Ok(v) => Ok(v)
    case Err(e) => Err(Typed(e))
  }

  function PlanIf(step: Step, s: Setting, run: Run): (r: Result<Plan, Fault>)
    ensures r.Ok? ==> r.value.NoBranch? || step.thenSteps == ListOf(r.value.nested) || step.elseSteps == ListOf(r.value.nested)
  {
    if step.condition.None? then Err(Typed(MissingParameter("if", "condition")))
    else
      var answer :- Render(step.condition.value, s, run);
      var holds := IsTruthy(answer, s.world.host);
      if !holds && step.elseSteps.Absent? then Ok(NoBranch)
      else
        var name := if holds then "then" else "else";
        var nested :- Lift(NestedSteps(if holds then step.thenSteps else step.elseSteps, "if", name));
        Ok(Branch(name, nested))
  }

  function PlanRepeat(step: Step, s: Setting, run: Run): (r: Result<Plan, Fault>)
    ensures r.Ok? ==> r.value.Times? && step.steps == ListOf(r.value.nested)
  {
    if step.times.None? then Err(Typed(MissingParameter("repeat", "times")))
    else
      var answer :- Render(step.times.value, s, run);
      var times :- Lift(CoerceTimes(answer));
      var nested :- Lift(NestedSteps(step.steps, "repeat", "steps"));
      Ok(Times(times, nested))
  }

  function LoopVariable(step: Step): Result<string, Error> {
    var v := if step.loopVar.Some? then step.loopVar.value else Str("item");
    if !v.Str? || !IsName(v.s) then Err(BadLoopVariable)
    else if v.s in RESERVED then Err(ReservedLoopVariable(v.s))
    else Ok(v.s)
  }

  function PlanForEach(step: Step, s: Setting, run: Run): (r: Result<Plan, Fault>)
    ensures r.Ok? ==> r.value.Each? && r.value.variable !in RESERVED && step.steps == ListOf(r.value.nested)
  {
    if step.items.None? then Err(Typed(MissingParameter("for_each", "items")))
    else
      var answer :- Render(step.items.value, s, run);
      if !answer.List? then Err(Typed(ItemsNotAList))
      else
        var variable :- Lift(LoopVariable(step));
        var nested :- Lift(NestedSteps(step.steps, "for_each", "steps"));
        Ok(Each(variable, answer.items, nested))
  }

  function PlanOptional(step: Step): (r: Result<Plan, Fault>)
    ensures r.Ok? ==> r.value.Tolerate? && step.steps == ListOf(r.value.nested)
  {
    var nested :- Lift(NestedSteps(step.steps, "optional", "steps"));
    Ok(Tolerate(nested))
  }

  function PlanFlow(step: Step, s: Setting, run: Run): (r: Result<Plan, Fault>)
    ensures r.Ok? && !r.value.NoBranch? ==> Owns(step, r.value.nested)
    ensures r.Ok? && r.value.Each? ==> r.value.variable !in RESERVED
  {
    if step.action == "if" then PlanIf(step, s, run)
    else if step.action == "repeat" then PlanRepeat(step, s, run)
    else if step.action == "optional" then PlanOptional(step)
    else PlanForEach(step, s, run)
  }

  predicate Owns(step: Step, nested: seq<Step>) {
    step.thenSteps == ListOf(nested) || step.elseSteps == ListOf(nested) || step.steps == ListOf(nested)
  }

  // The interpreter.

  /** What the `try` of one step ended with. */
  datatype Attempt = Finished(outputs: Table<Value>, status: Status) | NotTaken | Broke(thrown: Thrown)

  function Guarded(step: Step, s: Setting, run: Run): Result<bool, Fault> {
    if step.guard.None? then Ok(true)
    else
      var answer :- Render(step.guard.value, s, run);
      Ok(IsTruthy(answer, s.world.host))
  }

  /** The live driver of `act`, set up on first use and kept in the order of first use. */
  function Resolve(act: string, s: Setting, run: Run): (Run, Option<Fault>) {
    if act in run.drivers then (run, None)
    else if act !in s.world.registered then (run, Some(Typed(NoDriver(act))))
    else
      match s.world.setup(act, run.clock)
      case Some(fault) => (Tick(run), Some(fault))
      case None => (Tick(run).(drivers := run.drivers + [act]), None)
  }

  function CallLeaf(step: Step, act: string, s: Setting, run: Run): (Run, Attempt) {
    var (ready, problem) := Resolve(act, s, run);
    if problem.Some? then (Raise(ready, problem.value), Broke(Raw(problem.value)))
    else
      var answer := s.world.leaf(step, act, TemplateContext(s, ready), ready.clock);
      var called := Tick(ready).(
        calls := ready.calls + [Call(act, step.action)],
        events := ready.events + Chatter(answer.chatter));
      match answer.outcome
      case Ok(outputs) => (called, Finished(outputs, Success))
      case Err(fault) => (Raise(called, fault), Broke(Raw(fault)))
  }

  /** The `catch` of one step, and what follows its `try` when nothing was thrown. */
  function Settle(step: Step, index: nat, path: string, run: Run, attempt: Attempt): (Run, Option<Thrown>) {
    var id := DisplayId(step, index, path);
    var failed := (e: Error) => StepResult(id, step.action, Failed, [], Some(e));
    match attempt
    case NotTaken => (Record(run, SkippedResult(id, step.action), StepSkipped(id, step.guard)), None)
    case Finished(outputs, status) =>
      (Record(run.(outputs := Put(run.outputs, OutputKey(step, index, path), outputs)),
              StepResult(id, step.action, status, outputs, None), StepFinished(id)), None)
    case Broke(StepFailed(e)) => (run.(results := run.results + [failed(e)]), Some(StepFailed(e)))
    case Broke(Raw(Typed(e))) => (Record(run, failed(e), ErrorEvent(id, e)), Some(StepFailed(e)))
    case Broke(Raw(fault)) => (run, Some(Raw(fault)))
  }

  function RunOne(step: Step, index: nat, path: string, inherited: string, s: Setting, run: Run)
    : (Run, Option<Thrown>)
    decreases step, 1, 0
  {
    var begun := Tick(run);
    if s.world.aborted(run.clock) then (Raise(begun, Cancelled), Some(Raw(Cancelled)))
    else
      var (after, attempt) := Try(step, index, path, EffectiveAct(step, inherited), s, begun);
      Settle(step, index, path, after, attempt)
  }

  function Try(step: Step, index: nat, path: string, act: string, s: Setting, run: Run): (Run, Attempt)
    decreases step, 0, 1
  {
    match Guarded(step, s, run)
    case Err(fault) => (Raise(run, fault), Broke(Raw(fault)))
    case Ok(false) => (run, NotTaken)
    case Ok(true) =>
      var started := Emit(run, StepStarted(DisplayId(step, index, path)));
      if IsFlow(step.action) then RunFlow(step, StepPath(step, index, path), act, s, started)
      else CallLeaf(step, act, s, started)
  }

  function Number(n: nat): Value {
    Num(n as real)
  }

  function RunFlow(step: Step, path: string, act: string, s: Setting, run: Run): (Run, Attempt)
    decreases step, 0, 0
  {
    match PlanFlow(step, s, run)
    case Err(fault) => (Raise(run, fault), Broke(Raw(fault)))
    case Ok(NoBranch) => (run, Finished([("branch", Null)], Success))
    case Ok(Branch(name, nested)) =>
      var (after, thrown, _) := Walk(nested, 0, path, act, false, s, run);
      (after, Ended(thrown, [("branch", Str(name))], Success))
    case Ok(Times(n, nested)) =>
      var (after, thrown) := Rounds(nested, None, [], 0, n, path, act, s, run);
      (after, Ended(thrown, [("iterations", Number(n))], Success))
    case Ok(Each(variable, items, nested)) =>
      var (after, thrown) := Rounds(nested, Some(variable), items, 0, |items|, path, act, s, run);
      (after.(scope := Restored(after.scope, variable, run.scope)),
       Ended(thrown, [("iterations", Number(|items|))], Success))
    case Ok(Tolerate(nested)) =>
      var (after, thrown, gaveWay) := Walk(nested, 0, path, act, true, s, run);
      (after, Ended(thrown, [], if gaveWay then Partial else Success))
  }

  function Ended(thrown: Option<Thrown>, outputs: Table<Value>, status: Status): Attempt {
    if thrown.Some? then Broke(thrown.value) else Finished(outputs, status)
  }

  /** The `finally` of `for_each`: the shadowed variable comes back, or the variable goes. */
  function Restored(scope: Table<Value>, variable: string, before: Table<Value>): Table<Value> {
    match Find(before, variable)
    case Some(previous) => Put(scope, variable, previous)
    case None => Delete(scope, variable)
  }

  function Bound(run: Run, variable: Option<string>, items: seq<Value>, i: nat): Run
    requires variable.Some? ==> i < |items|
  {
    if variable.Some? then run.(scope := Put(run.scope, variable.value, items[i])) else run
  }

  /** Rounds `i` to `n - 1` of a loop; `for_each` binds its variable at the head of each. */
  function Rounds(nested: seq<Step>, variable: Option<string>, items: seq<Value>, i: nat, n: nat, path: string,
                  act: string, s: Setting, run: Run): (Run, Option<Thrown>)
    requires i <= n
    requires variable.Some? ==> n == |items|
    decreases nested, |nested| + 1, n - i
  {
    if i == n then (run, None)
    else
      var (after, thrown, _) := Walk(nested, 0, RoundPath(path, i), act, false, s, Bound(run, variable, items, i));
      if thrown.Some? then (after, thrown)
      else Rounds(nested, variable, items, i + 1, n, path, act, s, after)
  }

  /** Steps `i` onwards of one list; the flag says whether a tolerated failure cut it short. */
  function Walk(steps: seq<Step>, i: nat, path: string, act: string, tolerate: bool, s: Setting, run: Run)
    : (Run, Option<Thrown>, bool)
    requires i <= |steps|
    decreases steps, |steps| - i, 0
  {
    if i == |steps| then (run, None, false)
    else
      var (after, thrown) := RunOne(steps[i], i, path, act, s, run);
      if thrown.None? then Walk(steps, i + 1, path, act, tolerate, s, after)
      else if tolerate && thrown.value.StepFailed? then
        (SkipRest(steps, i + 1, path, Seeded(after, steps[i])), None, true)
      else (after, thrown, false)
  }
}
