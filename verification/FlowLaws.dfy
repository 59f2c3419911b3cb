/**
 * What each step of a run does, said of the fields the Blueprint wrote and of what the world answered: whether a step
 * starts at all, which block an `if` runs, how many rounds a loop makes and over what, and what each step publishes.
 */
module FlowLaws {
  import opened Common
  import opened Tables
  import opened ExprValues
  import opened Blueprint
  import opened RunModel
  import opened RunVisits
  import ExprEval
  import ExprLexer
  import ExprSyntax
  import Engine
  import Numerals
  import OptionalBlocks
  import RunLaws
  import StepLaws

  function StepAt(v: Visit): Step
    requires v.i < |v.steps|
  {
    v.steps[v.i]
  }

  /** The name of a step in its list: its id, or its index. */
  function OwnName(v: Visit): string
    requires v.i < |v.steps|
  {
    if StepAt(v).id.Some? then StepAt(v).id.value else "_step_" + Numerals.Decimal(v.i)
  }

  /** Where it stands: the names of the steps around it, then its own. */
  function Place(v: Visit): string
    requires v.i < |v.steps|
  {
    if v.path == "" then OwnName(v) else v.path + "." + OwnName(v)
  }

  /** What the results and the events call it. */
  function Shown(v: Visit): Option<string>
    requires v.i < |v.steps|
  {
    if v.path == "" then StepAt(v).id else Some(Place(v))
  }

  /** What the expressions call it. */
  function Key(v: Visit): string
    requires v.i < |v.steps|
  {
    if StepAt(v).id.Some? then StepAt(v).id.value else Place(v)
  }

  function ActOf(v: Visit): string
    requires v.i < |v.steps|
  {
    if StepAt(v).act.Some? then StepAt(v).act.value else v.act
  }

  function Truth(v: Value, s: Setting): bool {
    IsTruthy(v, s.world.host)
  }

  // ---- The guard -------------------------------------------------------------

  /** The run was not cancelled, and the guard, if there is one, renders to something true. */
  predicate Attempts(v: Visit, s: Setting)
    requires v.i < |v.steps|
  {
    && !s.world.aborted(v.run.clock)
    && (StepAt(v).guard.None?
        || (var answer := Render(StepAt(v).guard.value, s, Tick(v.run)); answer.Ok? && Truth(answer.value, s)))
  }

  predicate IsSkippedBy(v: Visit, s: Setting)
    requires v.i < |v.steps|
  {
    && !s.world.aborted(v.run.clock)
    && StepAt(v).guard.Some?
    && (var answer := Render(StepAt(v).guard.value, s, Tick(v.run)); answer.Ok? && !Truth(answer.value, s))
  }

  lemma NamesAgree(v: Visit)
    requires v.i < |v.steps|
    ensures StepPath(StepAt(v), v.i, v.path) == Place(v)
    ensures DisplayId(StepAt(v), v.i, v.path) == Shown(v)
    ensures OutputKey(StepAt(v), v.i, v.path) == Key(v)
    ensures EffectiveAct(StepAt(v), v.act) == ActOf(v)
  {
  }

  lemma StepTries(v: Visit, s: Setting)
    requires v.i < |v.steps|
    ensures var step := StepAt(v);
      var (after, attempt) := Try(step, v.i, v.path, ActOf(v), s, Tick(v.run));
      RunStep(v, s) == if s.world.aborted(v.run.clock) then (Raise(Tick(v.run), Cancelled), Some(Raw(Cancelled)))
                       else Settle(step, v.i, v.path, after, attempt)
  {
    hide Try, Settle;
  }

  lemma TryGuarded(v: Visit, s: Setting)
    requires v.i < |v.steps|
    ensures
      var tried := Try(StepAt(v), v.i, v.path, ActOf(v), s, Tick(v.run));
      match Guarded(StepAt(v), s, Tick(v.run))
      case Err(fault) => tried == (Raise(Tick(v.run), fault), Broke(Raw(fault)))
      case Ok(false) => tried == (Tick(v.run), NotTaken)
      case Ok(true) =>
        tried == if IsFlow(StepAt(v).action) then RunFlow(StepAt(v), Place(v), ActOf(v), s, Opened(v))
                 else CallLeaf(StepAt(v), ActOf(v), s, Opened(v))
  {
    hide RunFlow, CallLeaf, Guarded, StepPath, DisplayId, Place;
    NamesAgree(v);
  }

  /** A step whose guard is false does nothing but say so. */
  lemma GuardedOutDoesNothing(v: Visit, s: Setting)
    requires v.i < |v.steps| && IsSkippedBy(v, s)
    ensures RunStep(v, s).1.None?
    ensures var step := StepAt(v);
      RunStep(v, s).0 == v.run.(
        clock := v.run.clock + 1,
        results := v.run.results + [StepResult(Shown(v), step.action, Skipped, [], None)],
        events := v.run.events + [StepSkipped(Shown(v), step.guard)])
    ensures forall w :: !Enters(v, w, s)
  {
    hide RunStep, Try, Shown, DisplayId;
    NamesAgree(v);
    StepTries(v, s);
    TryGuarded(v, s);
    forall w ensures !Enters(v, w, s) {
      if Enters(v, w, s) {
        EntersAtHead(v, w, s);
      }
    }
  }

  /** A step that starts a block, a round, or a call of a driver, was not cancelled and had no false guard. */
  lemma NothingStartsUnguarded(v: Visit, s: Setting)
    requires v.i < |v.steps| && !Attempts(v, s)
    ensures forall w :: !Enters(v, w, s)
    ensures RunStep(v, s).0.calls == v.run.calls && RunStep(v, s).0.drivers == v.run.drivers
    ensures RunStep(v, s).0.outputs == v.run.outputs && RunStep(v, s).0.scope == v.run.scope
  {
    hide RunStep, Try, StepPath, DisplayId, PlanFlow;
    StepTries(v, s);
    TryGuarded(v, s);
    forall w ensures !Enters(v, w, s) {
      if Enters(v, w, s) {
        EntersAtHead(v, w, s);
      }
    }
  }

  /** A guard that cannot be rendered, and a cancelled run, stop the list. */
  lemma GuardFails(v: Visit, s: Setting)
    requires v.i < |v.steps|
    ensures s.world.aborted(v.run.clock) ==> RunStep(v, s).1 == Some(Raw(Cancelled))
    ensures
      var answer := if StepAt(v).guard.Some? then Render(StepAt(v).guard.value, s, Tick(v.run)) else Ok(Null);
      !s.world.aborted(v.run.clock) && answer.Err? ==> RunStep(v, s).1 == Some(Leaving(answer.error))
  {
    hide RunStep, Try, StepPath, DisplayId, PlanFlow;
    StepTries(v, s);
    TryGuarded(v, s);
  }

  /** How an error leaves the step it arose in: a typed one is recorded there, any other passes through. */
  function Leaving(fault: Fault): Thrown {
    match fault
    case Typed(e) => StepFailed(e)
    case _ => Raw(fault)
  }

  lemma OpensWhen(v: Visit, s: Setting)
    requires v.i < |v.steps|
    ensures Opens(v, s) <==> Attempts(v, s) && IsFlow(StepAt(v).action) && PlanFlow(StepAt(v), s, Opened(v)).Ok?
  {
    hide PlanFlow, DisplayId;
  }

  lemma TryFlow(v: Visit, s: Setting)
    requires v.i < |v.steps| && Attempts(v, s) && IsFlow(StepAt(v).action)
    ensures
      var step := StepAt(v);
      var (after, attempt) := RunFlow(step, Place(v), ActOf(v), s, Opened(v));
      RunStep(v, s) == Settle(step, v.i, v.path, after, attempt)
  {
    hide RunStep, Try, RunFlow, Settle, Place;
    StepTries(v, s);
    TryGuarded(v, s);
  }

  // ---- What a step leaves ----------------------------------------------------

  /** The step ended well: its outputs stand under its key, and it is in the results and the events. */
  predicate Publishes(v: Visit, s: Setting, outputs: Table<Value>, status: Status)
    requires v.i < |v.steps|
  {
    var (after, thrown) := RunStep(v, s);
    && thrown.None?
    && Find(after.outputs, Key(v)) == Some(outputs)
    && after.results != [] && after.results[|after.results| - 1]
                              == StepResult(Shown(v), StepAt(v).action, status, outputs, None)
    && after.events != [] && after.events[|after.events| - 1] == StepFinished(Shown(v))
  }

  /** The step itself failed: nothing was published, no driver called, and the error was reported and recorded. */
  predicate Refuses(v: Visit, s: Setting, e: Error)
    requires v.i < |v.steps|
  {
    var (after, thrown) := RunStep(v, s);
    && thrown == Some(StepFailed(e))
    && after.outputs == v.run.outputs && after.calls == v.run.calls
    && after.results == v.run.results + [StepResult(Shown(v), StepAt(v).action, Failed, [], Some(e))]
    && after.events != [] && after.events[|after.events| - 1] == ErrorEvent(Shown(v), e)
  }

  lemma SettledWell(v: Visit, after: Run, outputs: Table<Value>, status: Status, s: Setting)
    requires v.i < |v.steps|
    requires RunStep(v, s) == Settle(StepAt(v), v.i, v.path, after, Finished(outputs, status))
    ensures Publishes(v, s, outputs, status) && RunStep(v, s).0.calls == after.calls
  {
    hide RunStep, StepPath, DisplayId, OutputKey, Shown, Place, Key;
    NamesAgree(v);
    FindPut(after.outputs, Key(v), outputs, Key(v));
  }

  lemma SettledBroken(v: Visit, after: Run, thrown: Thrown, s: Setting)
    requires v.i < |v.steps|
    requires RunStep(v, s) == Settle(StepAt(v), v.i, v.path, after, Broke(thrown))
    ensures RunStep(v, s).1 == Some(if thrown.Raw? then Leaving(thrown.fault) else thrown)
    ensures RunStep(v, s).0.calls == after.calls && RunStep(v, s).0.outputs == after.outputs
  {
    hide RunStep, StepPath, DisplayId, OutputKey;
  }

  lemma FlowRefuses(v: Visit, s: Setting, fault: Fault)
    requires v.i < |v.steps| && Attempts(v, s) && IsFlow(StepAt(v).action)
    requires PlanFlow(StepAt(v), s, Opened(v)) == Err(fault)
    ensures RunStep(v, s).1 == Some(Leaving(fault)) && (forall w :: !Enters(v, w, s))
    ensures fault.Typed? ==> Refuses(v, s, fault.error)
  {
    hide PlanFlow, StepPath, DisplayId, Shown, RunStep;
    TryFlow(v, s);
    NamesAgree(v);
    forall w ensures !Enters(v, w, s) {
      if Enters(v, w, s) {
        EntersAtHead(v, w, s);
      }
    }
  }

  // ---- if --------------------------------------------------------------------

  /** The error of a field that should be a list of steps. */
  function FieldError(field: Field, action: string, name: string): Error
    requires !field.ListOf?
  {
    if field.BadList? then InvalidStep(action, name, |field.before|) else NotAStepList(action, name)
  }

  /** The block an `if` starts is the one its condition chooses. */
  lemma IfChooses(v: Visit, w: Visit, s: Setting)
    requires StartsBlock(v, w, s) && StepAt(v).action == "if"
    ensures Attempts(v, s) && StepAt(v).condition.Some?
    ensures var answer := Render(StepAt(v).condition.value, s, Opened(v));
      answer.Ok? && (if Truth(answer.value, s) then StepAt(v).thenSteps else StepAt(v).elseSteps) == ListOf(w.steps)
    ensures w == Visit(w.steps, 0, Place(v), ActOf(v), false, Opened(v))
  {
    hide Opened, PlanRepeat, PlanForEach, PlanOptional, Place, StepPath, IsTruthy;
    NamesAgree(v);
    OpensWhen(v, s);
  }

  /** An `if` with a condition that renders runs the branch it chooses, or nothing, and says which. */
  lemma IfRuns(v: Visit, s: Setting)
    requires v.i < |v.steps| && Attempts(v, s) && StepAt(v).action == "if" && StepAt(v).condition.Some?
    requires Render(StepAt(v).condition.value, s, Opened(v)).Ok?
    ensures
      var holds := Truth(Render(StepAt(v).condition.value, s, Opened(v)).value, s);
      var field := if holds then StepAt(v).thenSteps else StepAt(v).elseSteps;
      var name := if holds then "then" else "else";
      if !holds && field.Absent? then Publishes(v, s, [("branch", Null)], Success) && (forall w :: !Enters(v, w, s))
      else if !field.ListOf? then Refuses(v, s, FieldError(field, "if", name))
      else
        var w := Visit(field.list, 0, Place(v), ActOf(v), false, Opened(v));
        && StartsBlock(v, w, s) && RunStep(v, s).0.calls == End(w, s).calls
        && (RunStep(v, s).1.None? ==> Publishes(v, s, [("branch", Str(name))], Success))
        && RunStep(v, s).1 == WalkThrows(w, s)
  {
    hide RunStep, Walk, Opened, PlanRepeat, PlanForEach, PlanOptional, Place, Key, Shown, StepPath, IsTruthy, Settle,
      ActOf;
    NamesAgree(v);
    OpensWhen(v, s);
    TryFlow(v, s);
    var holds := Truth(Render(StepAt(v).condition.value, s, Opened(v)).value, s);
    var field := if holds then StepAt(v).thenSteps else StepAt(v).elseSteps;
    if !holds && field.Absent? {
      SettledWell(v, Opened(v), [("branch", Null)], Success, s);
    } else if !field.ListOf? {
      FlowRefuses(v, s, Typed(FieldError(field, "if", if holds then "then" else "else")));
    } else {
      var (after, thrown, _) := Walk(field.list, 0, Place(v), ActOf(v), false, s, Opened(v));
      FlowSettles(v, after, thrown, [("branch", Str(if holds then "then" else "else"))], Success, s);
    }
  }

  /** What the list throws, if it throws. */
  function WalkThrows(w: Visit, s: Setting): Option<Thrown>
    requires w.i <= |w.steps|
  {
    var thrown := Walk(w.steps, w.i, w.path, w.act, w.tolerate, s, w.run).1;
    if thrown.Some? && thrown.value.Raw? then Some(Leaving(thrown.value.fault)) else thrown
  }

  lemma FlowSettles(v: Visit, after: Run, thrown: Option<Thrown>, outputs: Table<Value>, status: Status, s: Setting)
    requires v.i < |v.steps|
    requires RunStep(v, s) == Settle(StepAt(v), v.i, v.path, after, Ended(thrown, outputs, status))
    ensures RunStep(v, s).0.calls == after.calls
    ensures RunStep(v, s).1 ==
      if thrown.Some? && thrown.value.Raw? then Some(Leaving(thrown.value.fault)) else thrown
    ensures thrown.None? ==> Publishes(v, s, outputs, status)
  {
    hide RunStep, Settle, Find, Key, Shown;
    if thrown.Some? {
      SettledBroken(v, after, thrown.value, s);
    } else {
      SettledWell(v, after, outputs, status, s);
    }
  }

  // ---- repeat ----------------------------------------------------------------

  predicate Spaces(text: string) {
    forall i :: 0 <= i < |text| ==> ExprLexer.IsSpace(text[i])
  }

  /** The text spells `n` in decimal, with an optional sign and with space around it. */
  ghost predicate Spells(text: string, n: int) {
    exists a: string, sign: string, digits: string, b: string :: SpelledAs(text, n, a, sign, digits, b)
  }

  ghost predicate SpelledAs(text: string, n: int, a: string, sign: string, digits: string, b: string) {
    && Spaces(a) && Spaces(b) && text == a + (sign + digits) + b
    && digits != "" && Numerals.AllDigits(digits) && sign in {"", "+", "-"}
    && n == if sign == "-" then -(Numerals.NumeralValue(digits) as int) else Numerals.NumeralValue(digits) as int
  }

  /** A count is a whole number, or a text that spells one. */
  ghost predicate Counts(answer: Value, n: int) {
    (answer.Num? && answer.n == n as real) || (answer.Str? && Spells(answer.s, n))
  }

  lemma {:induction false} TrimStartCuts(s: string) returns (a: string)
    ensures Spaces(a) && s == a + TrimStart(s)
    ensures TrimStart(s) != "" ==> !ExprLexer.IsSpace(TrimStart(s)[0])
  {
    a := "";
    if s != "" && ExprLexer.IsSpace(s[0]) {
      var rest := TrimStartCuts(s[1..]);
      a := [s[0]] + rest;
      assert s == [s[0]] + s[1..];
    }
  }

  lemma {:induction false} TrimEndCuts(s: string) returns (b: string)
    ensures Spaces(b) && s == TrimEnd(s) + b
    ensures TrimEnd(s) != "" ==> !ExprLexer.IsSpace(TrimEnd(s)[|TrimEnd(s)| - 1])
  {
    b := "";
    if s != "" && ExprLexer.IsSpace(s[|s| - 1]) {
      var rest := TrimEndCuts(s[..|s| - 1]);
      b := rest + [s[|s| - 1]];
      assert s == s[..|s| - 1] + [s[|s| - 1]];
    }
  }

  lemma {:induction false} TrimStartPasses(a: string, m: string)
    requires Spaces(a) && (m != "" ==> !ExprLexer.IsSpace(m[0]))
    ensures TrimStart(a + m) == m
    decreases |a|
  {
    if a == "" {
      assert a + m == m;
    } else {
      assert (a + m)[1..] == a[1..] + m;
      TrimStartPasses(a[1..], m);
    }
  }

  lemma {:induction false} TrimEndPasses(m: string, b: string)
    requires Spaces(b) && (m != "" ==> !ExprLexer.IsSpace(m[|m| - 1]))
    ensures TrimEnd(m + b) == m
    decreases |b|
  {
    if b == "" {
      assert m + b == m;
    } else {
      assert (m + b)[..|m + b| - 1] == m + b[..|b| - 1];
      TrimEndPasses(m, b[..|b| - 1]);
    }
  }

  /** Trimming takes the space around a text, and nothing else. */
  lemma TrimmedIs(a: string, m: string, b: string)
    requires Spaces(a) && Spaces(b) && m != "" && !ExprLexer.IsSpace(m[0]) && !ExprLexer.IsSpace(m[|m| - 1])
    ensures Trimmed(a + m + b) == m
  {
    assert a + m + b == a + (m + b);
    TrimStartPasses(a, m + b);
    TrimEndPasses(m, b);
  }

  lemma TrimmedCuts(s: string) returns (a: string, b: string)
    ensures Spaces(a) && Spaces(b) && s == a + Trimmed(s) + b
  {
    a := TrimStartCuts(s);
    b := TrimEndCuts(TrimStart(s));
    assert a + (Trimmed(s) + b) == a + Trimmed(s) + b;
  }

  lemma SpelledCounts(text: string, n: int, a: string, sign: string, digits: string, b: string)
    requires SpelledAs(text, n, a, sign, digits, b)
    ensures CoerceTimes(Str(text)) == NonNegative(n)
  {
    hide Trimmed, NonNegative;
    var m := sign + digits;
    TrimmedIs(a, m, b);
    assert sign != "" ==> m[1..] == digits;
    assert sign == "" ==> m == digits;
  }

  lemma CountsSpelled(text: string)
    requires CoerceTimes(Str(text)) != Err(NotAnInteger)
    ensures exists n :: Spells(text, n)
  {
    hide NonNegative;
    var a, b := TrimmedCuts(text);
    var t := Trimmed(text);
    var signed := t != "" && (t[0] == '+' || t[0] == '-');
    var sign := if !signed then "" else if t[0] == '+' then "+" else "-";
    var digits := if signed then t[1..] else t;
    assert t == sign + digits;
    var value: int := Numerals.NumeralValue(digits);
    var n := if sign == "-" then -value else value;
    assert SpelledAs(text, n, a, sign, digits, b);
    assert Spells(text, n);
  }

  /** The number of rounds a rendered count asks for. */
  lemma TimesRead(answer: Value)
    ensures forall n :: Counts(answer, n) ==>
      CoerceTimes(answer) == if n < 0 then Err(NegativeTimes(n)) else Ok(n)
    ensures (forall n :: !Counts(answer, n)) ==> CoerceTimes(answer) == Err(NotAnInteger)
  {
    hide SpelledAs, Trimmed;
    forall n | Counts(answer, n) ensures CoerceTimes(answer) == if n < 0 then Err(NegativeTimes(n)) else Ok(n) {
      if answer.Str? {
        var a, sign, digits, b :| SpelledAs(answer.s, n, a, sign, digits, b);
        SpelledCounts(answer.s, n, a, sign, digits, b);
      }
    }
    if CoerceTimes(answer) != Err(NotAnInteger) {
      CountsSomething(answer);
    }
  }

  lemma CountsSomething(answer: Value)
    requires CoerceTimes(answer) != Err(NotAnInteger)
    ensures exists n :: Counts(answer, n)
  {
    hide Spells, Trimmed;
    if answer.Num? {
      assert Counts(answer, answer.n.Floor);
    } else {
      CountsSpelled(answer.s);
      var n :| Spells(answer.s, n);
      assert Counts(answer, n);
    }
  }

  /** A round of a `repeat` is one of those its count asks for, and runs the loop's steps under its number. */
  lemma RepeatStarts(v: Visit, w: Visit, j: nat, s: Setting)
    requires StartsRound(v, w, j, s) && StepAt(v).action == "repeat"
    ensures Attempts(v, s) && StepAt(v).times.Some?
    ensures var answer := Render(StepAt(v).times.value, s, Opened(v));
      answer.Ok? && exists n :: Counts(answer.value, n) && j < n
    ensures StepAt(v).steps == ListOf(w.steps)
    ensures w.path == Place(v) + "[" + Numerals.Decimal(j) + "]"
    ensures w.i == 0 && w.act == ActOf(v) && !w.tolerate && (j == 0 ==> w.run == Opened(v))
  {
    hide Opened, PlanIf, PlanForEach, PlanOptional, Place, StepPath, CoerceTimes, Counts;
    NamesAgree(v);
    OpensWhen(v, s);
    TimesRead(Render(StepAt(v).times.value, s, Opened(v)).value);
  }

  /** The first round starts where the loop opened, and each next one where the previous one ended. */
  lemma RoundsFollow(v: Visit, a: Visit, b: Visit, j: nat, s: Setting)
    requires StartsRound(v, a, j, s) && StartsRound(v, b, j + 1, s)
    ensures WalkOf(a, s).1.None? && a.steps == b.steps && a.act == b.act
    ensures b.run == WalkOf(a, s).0.(scope := b.run.scope)
  {
    hide Walk, PlanFlow, Opened, StepPath, Guarded;
  }

  function WalkOf(w: Visit, s: Setting): (Run, Option<Thrown>, bool)
    requires w.i <= |w.steps|
  {
    Walk(w.steps, w.i, w.path, w.act, w.tolerate, s, w.run)
  }

  /** Rounds `0` to `n - 1` all threw nothing, or the first that threw ends the loop. */
  lemma {:induction false} RoundsEnd(nested: seq<Step>, variable: Option<string>, items: seq<Value>, i: nat, n: nat,
                                     path: string, act: string, s: Setting, run: Run, start: Run)
    requires i <= n && (variable.Some? ==> n == |items|)
    requires AfterRounds(nested, variable, items, i, path, act, s, start) == Some(run)
    ensures var (after, thrown) := Rounds(nested, variable, items, i, n, path, act, s, run);
      thrown.None? ==> AfterRounds(nested, variable, items, n, path, act, s, start) == Some(after)
    decreases n - i
  {
    hide Walk, RoundPath;
    if i < n {
      var (after, thrown, _) := Walk(nested, 0, RoundPath(path, i), act, false, s, Bound(run, variable, items, i));
      if thrown.None? {
        RoundsEnd(nested, variable, items, i + 1, n, path, act, s, after, start);
      }
    }
  }

  lemma {:induction false} EarlierRounds(nested: seq<Step>, variable: Option<string>, items: seq<Value>, j: nat, n: nat,
                                         path: string, act: string, s: Setting, run: Run)
    requires j <= n && (variable.Some? ==> n <= |items|)
    requires AfterRounds(nested, variable, items, n, path, act, s, run).Some?
    ensures AfterRounds(nested, variable, items, j, path, act, s, run).Some?
    decreases n
  {
    hide Walk, RoundPath;
    if j < n {
      EarlierRounds(nested, variable, items, j, n - 1, path, act, s, run);
    }
  }

  ghost predicate HasRound(v: Visit, j: nat, s: Setting) {
    exists w :: StartsRound(v, w, j, s)
  }

  /** Every one of the first `n` rounds starts. */
  ghost predicate AllRounds(v: Visit, n: nat, s: Setting) {
    forall j: nat :: j < n ==> HasRound(v, j, s)
  }

  /** A `repeat` that ends well ran as many rounds as its count, and says so. */
  lemma RepeatRuns(v: Visit, s: Setting, n: int)
    requires v.i < |v.steps| && Attempts(v, s) && StepAt(v).action == "repeat" && StepAt(v).times.Some?
    requires Render(StepAt(v).times.value, s, Opened(v)).Ok?
    requires Counts(Render(StepAt(v).times.value, s, Opened(v)).value, n)
    ensures
      if n < 0 then Refuses(v, s, NegativeTimes(n))
      else if !StepAt(v).steps.ListOf? then Refuses(v, s, FieldError(StepAt(v).steps, "repeat", "steps"))
      else RunStep(v, s).1.None? ==> Publishes(v, s, [("iterations", Num(n as real))], Success) && AllRounds(v, n, s)
  {
    hide RunStep, Opened, Walk, Rounds, PlanIf, PlanForEach, PlanOptional, Place, Key, Shown, StepPath, Settle, ActOf,
      CoerceTimes, Counts;
    NamesAgree(v);
    OpensWhen(v, s);
    TryFlow(v, s);
    TimesRead(Render(StepAt(v).times.value, s, Opened(v)).value);
    if n < 0 {
      FlowRefuses(v, s, Typed(NegativeTimes(n)));
    } else if !StepAt(v).steps.ListOf? {
      FlowRefuses(v, s, Typed(FieldError(StepAt(v).steps, "repeat", "steps")));
    } else {
      var nested := StepAt(v).steps.list;
      var (after, thrown) := Rounds(nested, None, [], 0, n, Place(v), ActOf(v), s, Opened(v));
      FlowSettles(v, after, thrown, [("iterations", Number(n))], Success, s);
      if thrown.None? {
        RoundsEnd(nested, None, [], 0, n, Place(v), ActOf(v), s, Opened(v), Opened(v));
        forall j: nat | j < n ensures HasRound(v, j, s) {
          RoundExists(v, nested, None, [], j, n, s);
        }
      }
    }
  }

  lemma RoundExists(v: Visit, nested: seq<Step>, variable: Option<string>, items: seq<Value>, j: nat, n: nat,
                    s: Setting)
    requires Opens(v, s) && j < n && (variable.Some? ==> n == |items|)
    requires
      var plan := PlanFlow(StepAt(v), s, Opened(v)).value;
      if variable.Some? then plan == Each(variable.value, items, nested) else items == [] && plan == Times(n, nested)
    requires AfterRounds(nested, variable, items, n, Place(v), ActOf(v), s, Opened(v)).Some?
    ensures HasRound(v, j, s)
  {
    hide PlanFlow, Opened, Place, StepPath, Guarded, RoundPath;
    NamesAgree(v);
    EarlierRounds(nested, variable, items, j, n, Place(v), ActOf(v), s, Opened(v));
    var before := AfterRounds(nested, variable, items, j, Place(v), ActOf(v), s, Opened(v)).value;
    var w := Visit(nested, 0, RoundPath(Place(v), j), ActOf(v), false, Bound(before, variable, items, j));
    assert Round(w, nested, variable, items, j, Place(v), ActOf(v), s, Opened(v));
    assert StartsRound(v, w, j, s);
  }

  // ---- for_each --------------------------------------------------------------

  /** The loop variable: the one `as` names, or `item`. */
  function VariableOf(step: Step): Value {
    if step.loopVar.Some? then step.loopVar.value else Str("item")
  }

  predicate Letter(c: char) {
    'a' <= c <= 'z' || 'A' <= c <= 'Z' || c == '_'
  }

  predicate Identifier(name: string) {
    name != "" && Letter(name[0]) && forall i :: 0 <= i < |name| ==> Letter(name[i]) || '0' <= name[i] <= '9'
  }

  predicate Usable(variable: Value) {
    variable.Str? && Identifier(variable.s) && variable.s !in {"inputs", "secrets", "vars", "env", "steps"}
  }

  lemma IdentifierIs(name: string)
    ensures Identifier(name) <==> IsName(name)
  {
    if IsName(name) {
      assert IsNameChar(name[0]);
    }
  }

  lemma VariableIs(step: Step)
    ensures var v := VariableOf(step);
      LoopVariable(step) ==
        if Usable(v) then Ok(v.s)
        else if v.Str? && Identifier(v.s) then Err(ReservedLoopVariable(v.s))
        else Err(BadLoopVariable)
  {
    hide IsName, Identifier;
    if VariableOf(step).Str? {
      IdentifierIs(VariableOf(step).s);
    }
  }

  /** Round `j` of a `for_each` has the `j`-th item of the rendered list under the loop's variable. */
  lemma ForEachStarts(v: Visit, w: Visit, j: nat, s: Setting)
    requires StartsRound(v, w, j, s) && StepAt(v).action == "for_each"
    ensures Attempts(v, s) && StepAt(v).items.Some? && Usable(VariableOf(StepAt(v)))
    ensures var answer := Render(StepAt(v).items.value, s, Opened(v));
      && answer.Ok? && answer.value.List? && j < |answer.value.items|
      && Find(w.run.scope, VariableOf(StepAt(v)).s) == Some(answer.value.items[j])
    ensures StepAt(v).steps == ListOf(w.steps)
    ensures w.path == Place(v) + "[" + Numerals.Decimal(j) + "]"
    ensures w.i == 0 && w.act == ActOf(v) && !w.tolerate
    ensures j == 0 ==> w.run == Opened(v).(scope := w.run.scope)
  {
    hide Opened, PlanIf, PlanRepeat, PlanOptional, Place, StepPath, LoopVariable, VariableOf, Identifier, AfterRounds;
    NamesAgree(v);
    OpensWhen(v, s);
    VariableIs(StepAt(v));
    var items := Render(StepAt(v).items.value, s, Opened(v)).value.items;
    var name := VariableOf(StepAt(v)).s;
    var before := AfterRounds(w.steps, Some(name), items, j, Place(v), ActOf(v), s, Opened(v)).value;
    FindPut(before.scope, name, items[j], name);
    FirstRound(w.steps, Some(name), items, Place(v), ActOf(v), s, Opened(v));
  }

  lemma FirstRound(nested: seq<Step>, variable: Option<string>, items: seq<Value>, path: string, act: string,
                   s: Setting, run: Run)
    ensures AfterRounds(nested, variable, items, 0, path, act, s, run) == Some(run)
  {
  }

  /** A `for_each` refuses what is no list, then a bad variable, then bad steps; else it runs a round for each item. */
  lemma ForEachRuns(v: Visit, s: Setting)
    requires v.i < |v.steps| && Attempts(v, s) && StepAt(v).action == "for_each" && StepAt(v).items.Some?
    requires Render(StepAt(v).items.value, s, Opened(v)).Ok?
    ensures
      var answer := Render(StepAt(v).items.value, s, Opened(v)).value;
      var variable := VariableOf(StepAt(v));
      if !answer.List? then Refuses(v, s, ItemsNotAList)
      else if !variable.Str? || !Identifier(variable.s) then Refuses(v, s, BadLoopVariable)
      else if !Usable(variable) then Refuses(v, s, ReservedLoopVariable(variable.s))
      else if !StepAt(v).steps.ListOf? then Refuses(v, s, FieldError(StepAt(v).steps, "for_each", "steps"))
      else
        RunStep(v, s).1.None? ==>
          && Publishes(v, s, [("iterations", Num(|answer.items| as real))], Success)
          && AllRounds(v, |answer.items|, s)
  {
    hide RunStep, Opened, Walk, Rounds, PlanIf, PlanRepeat, PlanOptional, Place, Key, Shown, StepPath, Settle, ActOf,
      LoopVariable, VariableOf, Identifier;
    NamesAgree(v);
    OpensWhen(v, s);
    TryFlow(v, s);
    VariableIs(StepAt(v));
    var answer := Render(StepAt(v).items.value, s, Opened(v)).value;
    var plan := PlanFlow(StepAt(v), s, Opened(v));
    if plan.Err? {
      FlowRefuses(v, s, plan.error);
    } else {
      var nested, name := StepAt(v).steps.list, VariableOf(StepAt(v)).s;
      var n := |answer.items|;
      var (after, thrown) := Rounds(nested, Some(name), answer.items, 0, n, Place(v), ActOf(v), s, Opened(v));
      FlowSettles(v, after.(scope := Restored(after.scope, name, Opened(v).scope)), thrown, [("iterations", Number(n))],
                  Success, s);
      if thrown.None? {
        RoundsEnd(nested, Some(name), answer.items, 0, n, Place(v), ActOf(v), s, Opened(v), Opened(v));
        forall j: nat | j < n ensures HasRound(v, j, s) {
          RoundExists(v, nested, Some(name), answer.items, j, n, s);
        }
      }
    }
  }

  // ---- optional, and what is missing -----------------------------------------

  /** An `optional` step runs its steps, tolerating failure, and is `partial` exactly when they gave way. */
  lemma OptionalRuns(v: Visit, s: Setting)
    requires v.i < |v.steps| && Attempts(v, s) && StepAt(v).action == "optional"
    ensures
      if !StepAt(v).steps.ListOf? then Refuses(v, s, FieldError(StepAt(v).steps, "optional", "steps"))
      else
        var w := Visit(StepAt(v).steps.list, 0, Place(v), ActOf(v), true, Opened(v));
        && StartsBlock(v, w, s) && RunStep(v, s).0.calls == End(w, s).calls
        && (RunStep(v, s).1.None? ==> Publishes(v, s, [], if GaveWay(w, s) then Partial else Success))
        && RunStep(v, s).1 == WalkThrows(w, s)
  {
    hide RunStep, Walk, Opened, PlanIf, PlanRepeat, PlanForEach, Place, Key, Shown, StepPath, Settle, ActOf;
    NamesAgree(v);
    OpensWhen(v, s);
    TryFlow(v, s);
    if !StepAt(v).steps.ListOf? {
      FlowRefuses(v, s, Typed(FieldError(StepAt(v).steps, "optional", "steps")));
    } else {
      var (after, thrown, gaveWay) := Walk(StepAt(v).steps.list, 0, Place(v), ActOf(v), true, s, Opened(v));
      FlowSettles(v, after, thrown, [], if gaveWay then Partial else Success, s);
    }
  }

  /** The parameter an action cannot do without. */
  function Needed(step: Step): Option<(string, Option<Value>)> {
    match step.action
    case "if" => Some(("condition", step.condition))
    case "repeat" => Some(("times", step.times))
    case "for_each" => Some(("items", step.items))
    case _ => None
  }

  /** Without it the step is refused; and what keeps it from rendering is what leaves the step. */
  lemma MissingIsRefused(v: Visit, s: Setting)
    requires v.i < |v.steps| && Attempts(v, s) && Needed(StepAt(v)).Some?
    ensures
      var (name, given) := Needed(StepAt(v)).value;
      if given.None? then Refuses(v, s, MissingParameter(StepAt(v).action, name))
      else
        var answer := Render(given.value, s, Opened(v));
        answer.Err? ==> RunStep(v, s).1 == Some(Leaving(answer.error)) && forall w :: !Enters(v, w, s)
  {
    hide RunStep, Opened, Place, Key, Shown, StepPath, IsTruthy, CoerceTimes, LoopVariable, NestedSteps, Refuses,
      Enters;
    var plan := PlanFlow(StepAt(v), s, Opened(v));
    var (_, given) := Needed(StepAt(v)).value;
    if given.None? || Render(given.value, s, Opened(v)).Err? {
      FlowRefuses(v, s, plan.error);
    }
  }

  // ---- Leaf actions ----------------------------------------------------------

  /** The state in which a driver that is up, or comes up now, is called; or why there is none. */
  function Ready(v: Visit, s: Setting): Result<Run, Fault>
    requires v.i < |v.steps|
  {
    var start := Opened(v);
    if ActOf(v) in start.drivers then Ok(start)
    else if ActOf(v) !in s.world.registered then Err(Typed(NoDriver(ActOf(v))))
    else
      match s.world.setup(ActOf(v), start.clock)
      case Some(fault) => Err(fault)
      case None => Ok(start.(drivers := start.drivers + [ActOf(v)], clock := start.clock + 1))
  }

  /**
   * A leaf action is handed once to the driver of its act, set up if it was not, with the tables as they are; what the
   * driver answers is published, and what it throws leaves the step.
   */
  lemma LeafIsCalledOnce(v: Visit, s: Setting)
    requires v.i < |v.steps| && Attempts(v, s) && !IsFlow(StepAt(v).action)
    ensures forall w :: !Enters(v, w, s)
    ensures
      var ready := Ready(v, s);
      if ready.Err? then
        RunStep(v, s).0.calls == v.run.calls && RunStep(v, s).1 == Some(Leaving(ready.error))
      else
        var answer := s.world.leaf(StepAt(v), ActOf(v), TemplateContext(s, ready.value), ready.value.clock);
        && RunStep(v, s).0.calls == v.run.calls + [Call(ActOf(v), StepAt(v).action)]
        && RunStep(v, s).0.drivers == ready.value.drivers
        && (answer.outcome.Ok? ==> Publishes(v, s, answer.outcome.value, Success))
        && (answer.outcome.Err? ==> RunStep(v, s).1 == Some(Leaving(answer.outcome.error)))
  {
    hide RunStep, Try, Place, Key, Shown, StepPath, DisplayId, OutputKey, TemplateContext, PlanFlow, Settle, ActOf,
      Attempts, Publishes;
    StepTries(v, s);
    TryGuarded(v, s);
    GuardOpens(v, s);
    forall w ensures !Enters(v, w, s) {
      if Enters(v, w, s) {
        EntersAtHead(v, w, s);
      }
    }
    var (after, attempt) := CallLeaf(StepAt(v), ActOf(v), s, Opened(v));
    SettleKeepsDrivers(v, after, attempt);
    if attempt.Finished? {
      SettledWell(v, after, attempt.outputs, Success, s);
    } else if attempt.Broke? {
      SettledBroken(v, after, attempt.thrown, s);
    }
  }

  lemma GuardOpens(v: Visit, s: Setting)
    requires v.i < |v.steps| && Attempts(v, s)
    ensures !s.world.aborted(v.run.clock) && Guarded(StepAt(v), s, Tick(v.run)) == Ok(true)
  {
    hide IsTruthy;
  }

  lemma SettleKeepsDrivers(v: Visit, after: Run, attempt: Attempt)
    requires v.i < |v.steps|
    ensures Settle(StepAt(v), v.i, v.path, after, attempt).0.drivers == after.drivers
  {
    hide DisplayId, OutputKey;
  }

  // ---- The list --------------------------------------------------------------

  /** A step that throws ends its list at once, unless the list tolerates it and the step recorded it. */
  lemma AThrowEndsTheList(v: Visit, s: Setting)
    requires v.i < |v.steps| && RunStep(v, s).1.Some?
    requires !v.tolerate || RunStep(v, s).1.value.Raw?
    ensures WalkOf(v, s) == (RunStep(v, s).0, RunStep(v, s).1, false)
  {
    hide RunOne;
  }

  /** A tolerated failure calls no driver again in its list, throws nothing, and is remembered. */
  lemma AToleratedThrowGivesWay(v: Visit, s: Setting)
    requires v.i < |v.steps| && v.tolerate && RunStep(v, s).1.Some? && RunStep(v, s).1.value.StepFailed?
    ensures WalkOf(v, s).1.None? && GaveWay(v, s)
    ensures WalkOf(v, s).0.calls == RunStep(v, s).0.calls
    ensures |WalkOf(v, s).0.results| == |RunStep(v, s).0.results| + (|v.steps| - v.i - 1)
  {
    hide RunOne, SkipRest, Seed;
    SkippedAll(v.steps, v.i + 1, v.path, Seeded(RunStep(v, s).0, v.steps[v.i]));
  }

  lemma {:induction false} SkippedAll(steps: seq<Step>, i: nat, path: string, run: Run)
    requires i <= |steps|
    ensures var after := SkipRest(steps, i, path, run);
      after.calls == run.calls && |after.results| == |run.results| + (|steps| - i)
    decreases |steps| - i
  {
    hide Seed, DisplayId;
    if i < |steps| {
      var id := DisplayId(steps[i], i, path);
      SkippedAll(steps, i + 1, path,
        Record(Seeded(run, steps[i]), SkippedResult(id, steps[i].action), StepSkipped(id, None)));
    }
  }

  // ---- What expressions see --------------------------------------------------

  lemma {:induction false} FindOver(base: Table<Value>, over: Table<Value>, key: string)
    requires Distinct(over) && Find(over, key).Some?
    ensures Find(Merge(base, over), key) == Find(over, key)
    decreases |over|
  {
    var next := Put(base, over[0].0, over[0].1);
    if over[0].0 == key {
      FindPut(base, key, over[0].1, key);
      OptionalBlocks.FindMerged(next, over[1..], key);
    } else {
      FindOver(next, over[1..], key);
    }
  }

  /** Expressions see the four tables of the run, what was published, and the loop variables. */
  lemma TablesVisible(s: Setting, run: Run, name: string)
    requires InOrder(run) && Distinct(run.scope)
    ensures var ctx := TemplateContext(s, run);
      && Find(ctx, "inputs") == Some(Obj(s.inputs)) && Find(ctx, "secrets") == Some(Obj(s.secrets))
      && Find(ctx, "vars") == Some(Obj(s.vars)) && Find(ctx, "env") == Some(Obj(s.env))
      && Find(ctx, "steps") == Some(Obj(OutputTable(run.outputs)))
    ensures Find(run.scope, name).Some? ==> Find(TemplateContext(s, run), name) == Find(run.scope, name)
    ensures Find(run.scope, name).None? && name !in RESERVED ==> Find(TemplateContext(s, run), name).None?
  {
    hide InOrder, OutputTable;
    NoneReserved(run);
    var tables := ReservedTables(s, run);
    ReservedFound(s, run, name);
    OptionalBlocks.FindMerged(tables, run.scope, "inputs");
    OptionalBlocks.FindMerged(tables, run.scope, "secrets");
    OptionalBlocks.FindMerged(tables, run.scope, "vars");
    OptionalBlocks.FindMerged(tables, run.scope, "env");
    OptionalBlocks.FindMerged(tables, run.scope, "steps");
    if Find(run.scope, name).Some? {
      FindOver(tables, run.scope, name);
    } else {
      OptionalBlocks.FindMerged(tables, run.scope, name);
    }
  }

  lemma NoneReserved(run: Run)
    requires InOrder(run)
    ensures forall name :: name in RESERVED ==> Find(run.scope, name).None?
  {
  }

  lemma ReservedFound(s: Setting, run: Run, name: string)
    ensures var tables := ReservedTables(s, run);
      && Find(tables, "inputs") == Some(Obj(s.inputs)) && Find(tables, "secrets") == Some(Obj(s.secrets))
      && Find(tables, "vars") == Some(Obj(s.vars)) && Find(tables, "env") == Some(Obj(s.env))
      && Find(tables, "steps") == Some(Obj(OutputTable(run.outputs)))
      && (name !in RESERVED ==> Find(tables, name).None?)
  {
    hide OutputTable, Find;
    var t := ReservedTables(s, run);
    assert Distinct(t);
    FindDistinct(t, 0);
    FindDistinct(t, 1);
    FindDistinct(t, 2);
    FindDistinct(t, 3);
    FindDistinct(t, 4);
  }

  lemma BoundDistinct(run: Run, variable: Option<string>, items: seq<Value>, i: nat)
    requires Distinct(run.scope) && (variable.Some? ==> i < |items|)
    ensures Distinct(Bound(run, variable, items, i).scope)
  {
    if variable.Some? {
      DistinctPut(run.scope, variable.value, items[i]);
    }
  }

  lemma {:induction false} RoundsDistinct(nested: seq<Step>, variable: Option<string>, items: seq<Value>, j: nat,
                                          path: string, act: string, s: Setting, run: Run)
    requires InOrder(run) && Distinct(run.scope)
    requires variable.Some? ==> j <= |items| && variable.value !in RESERVED
    ensures var after := AfterRounds(nested, variable, items, j, path, act, s, run);
      after.Some? ==> InOrder(after.value) && Distinct(after.value.scope)
  {
    hide Walk, InOrder, RoundPath, Distinct, RunLaws.Reported, RunLaws.TypedOf, RunLaws.Debt, RunLaws.Closing,
      RunLaws.Skipping;
    RoundsInOrder(nested, variable, items, j, path, act, s, run);
    if j > 0 && AfterRounds(nested, variable, items, j, path, act, s, run).Some? {
      RoundsInOrder(nested, variable, items, j - 1, path, act, s, run);
      RoundsDistinct(nested, variable, items, j - 1, path, act, s, run);
      var before := AfterRounds(nested, variable, items, j - 1, path, act, s, run).value;
      BoundInOrder(before, variable, items, j - 1);
      BoundDistinct(before, variable, items, j - 1);
      InOrderMeans(Bound(before, variable, items, j - 1));
      StepLaws.WalkKeeps(nested, 0, RoundPath(path, j - 1), act, false, s, Bound(before, variable, items, j - 1));
    }
  }

  lemma MovesDistinct(v: Visit, w: Visit, s: Setting)
    requires InOrder(v.run) && Distinct(v.run.scope) && Moves(v, w, s)
    ensures Distinct(w.run.scope) && (Onwards(v, w, s) ==> w.run.scope == v.run.scope)
  {
    hide InOrder, PlanFlow, Walk, RunOne, StepPath, Distinct, Guarded, RunLaws.Reported, RunLaws.TypedOf, RunLaws.Debt,
      RunLaws.Closing, RunLaws.Skipping, RoundPath, Bound;
    InOrderMeans(v.run);
    if Onwards(v, w, s) {
      StepLaws.RunOneKeeps(v.steps[v.i], v.i, v.path, v.act, s, v.run);
    } else if !StartsBlock(v, w, s) {
      var j: nat :| StartsRound(v, w, j, s);
      OpenedInOrder(v);
      var path, act := StepPath(v.steps[v.i], v.i, v.path), EffectiveAct(v.steps[v.i], v.act);
      match PlanFlow(v.steps[v.i], s, Opened(v)).value {
        case Times(n, nested) => RoundDistinct(w, nested, None, [], j, path, act, s, Opened(v));
        case Each(variable, items, nested) =>
          RoundDistinct(w, nested, Some(variable), items, j, path, act, s, Opened(v));
        case _ =>
      }
    }
  }

  lemma RoundDistinct(w: Visit, nested: seq<Step>, variable: Option<string>, items: seq<Value>, j: nat, path: string,
                      act: string, s: Setting, run: Run)
    requires InOrder(run) && Distinct(run.scope)
    requires variable.Some? ==> j < |items| && variable.value !in RESERVED
    requires Round(w, nested, variable, items, j, path, act, s, run)
    ensures Distinct(w.run.scope)
  {
    hide InOrder, Distinct, Bound, RoundPath;
    RoundsDistinct(nested, variable, items, j, path, act, s, run);
    BoundDistinct(AfterRounds(nested, variable, items, j, path, act, s, run).value, variable, items, j);
  }

  lemma {:induction false} RouteDistinct(vs: seq<Visit>, program: Engine.Program, s: Setting, k: nat)
    requires Route(vs, program, s) && k < |vs|
    ensures Distinct(vs[k].run.scope)
    decreases k
  {
    hide InOrder, Begins, Moves, Distinct;
    if k == 0 {
      StartsBare(vs[0], program, s);
    } else {
      RouteDistinct(vs, program, s, k - 1);
      RouteInOrder(vs, program, s, k - 1, k - 1);
      MovesDistinct(vs[k - 1], vs[k], s);
    }
  }

  lemma StartsBare(v: Visit, program: Engine.Program, s: Setting)
    requires Begins(v, program, s)
    ensures Distinct(v.run.scope)
  {
  }

  /** Each of the visits from `a` to `b` is the next step of the same list. */
  ghost predicate Along(vs: seq<Visit>, a: nat, b: nat, s: Setting)
    requires a <= b < |vs|
  {
    forall k :: a <= k < b ==> Onwards(vs[k], vs[k + 1], s)
  }

  lemma {:induction false} AlongKeepsScope(vs: seq<Visit>, program: Engine.Program, s: Setting, a: nat, b: nat)
    requires Route(vs, program, s) && a <= b < |vs| && Along(vs, a, b, s)
    ensures vs[b].run.scope == vs[a].run.scope
    decreases b
  {
    hide InOrder, Begins, Onwards, Enters, Distinct;
    if a < b {
      AlongKeepsScope(vs, program, s, a, b - 1);
      RouteInOrder(vs, program, s, b - 1, b - 1);
      RouteDistinct(vs, program, s, b - 1);
      MovesDistinct(vs[b - 1], vs[b], s);
    }
  }

  /**
   * In round `j` of a `for_each`, the loop's variable reads as the `j`-th item at every step of the block, whatever the
   * steps before it did, loops of the same variable among them.
   */
  lemma ItemIsRead(vs: seq<Visit>, program: Engine.Program, s: Setting, a: nat, b: nat, j: nat)
    requires Route(vs, program, s) && 0 < a <= b < |vs| && Along(vs, a, b, s)
    requires StartsRound(vs[a - 1], vs[a], j, s) && StepAt(vs[a - 1]).action == "for_each"
    ensures
      var step := StepAt(vs[a - 1]);
      step.items.Some? && VariableOf(step).Str?
      && var items := Render(step.items.value, s, Opened(vs[a - 1]));
         items.Ok? && items.value.List? && j < |items.value.items|
         && ExprEval.Evaluate(ExprSyntax.Var(VariableOf(step).s), TemplateContext(s, vs[b].run), s.world.host)
            == Ok(items.value.items[j])
  {
    hide InOrder, Begins, Moves, Along, Distinct, StartsRound, TemplateContext, VariableOf;
    EntersAtHead(vs[a - 1], vs[a], s) by {
      assert Enters(vs[a - 1], vs[a], s);
    }
    ForEachStarts(vs[a - 1], vs[a], j, s);
    AlongKeepsScope(vs, program, s, a, b);
    RouteInOrder(vs, program, s, b, b);
    RouteDistinct(vs, program, s, b);
    TablesVisible(s, vs[b].run, VariableOf(StepAt(vs[a - 1])).s);
  }

  // ---- Names -----------------------------------------------------------------

  lemma Inside(a: string, m: string, b: string, k: nat)
    ensures k < |m| ==> (a + m + b)[|a| + k] in m
  {
  }

  lemma CutNoLater(x: string, y: string, c: char, a: string, b: string)
    requires x + [c] + y == a + [c] + b && c !in a
    ensures |a| <= |x|
  {
    assert (x + [c] + y)[|x|] == c;
    Inside("", a, [c] + b, |x|);
    assert a + [c] + b == "" + a + ([c] + b);
  }

  lemma CutAt(x: string, y: string, c: char, a: string, b: string)
    requires x + [c] + y == a + [c] + b && c !in x && c !in a
    ensures x == a && y == b
  {
    CutNoLater(x, y, c, a, b);
    CutNoLater(a, b, c, x, y);
    var t := x + [c] + y;
    assert t[..|x|] == x && t[..|a|] == a && t[|x| + 1..] == y && t[|a| + 1..] == b;
  }

  lemma NoDigit(n: nat, c: char)
    requires !Numerals.IsDigit(c)
    ensures c !in Numerals.Decimal(n)
  {
  }

  lemma After(head: string, a: string, b: string)
    requires head + a == head + b
    ensures a == b
  {
    assert (head + a)[|head|..] == a && (head + b)[|head|..] == b;
  }

  function Unnamed(k: nat): string {
    "_step_" + Numerals.Decimal(k)
  }

  lemma UnnamedDiffer(k: nat, l: nat)
    requires k != l
    ensures Unnamed(k) != Unnamed(l)
  {
    if Unnamed(k) == Unnamed(l) {
      After("_step_", Numerals.Decimal(k), Numerals.Decimal(l));
      Numerals.DecimalInjective(k, l);
    }
  }

  lemma SameListApart(path: string, k: nat, l: nat)
    requires k != l
    ensures path + "." + Unnamed(k) != path + "." + Unnamed(l)
  {
    hide Unnamed;
    UnnamedDiffer(k, l);
    if path + "." + Unnamed(k) == path + "." + Unnamed(l) {
      After(path + ".", Unnamed(k), Unnamed(l));
    }
  }

  lemma RoundsApart(path: string, i: nat, j: nat, x: string, y: string)
    requires i != j
    ensures RoundPath(path, i) + "." + x != RoundPath(path, j) + "." + y
  {
    hide Numerals.Decimal;
    var a, b := Numerals.Decimal(i), Numerals.Decimal(j);
    var s, t := RoundPath(path, i) + "." + x, RoundPath(path, j) + "." + y;
    assert s == (path + "[") + (a + "]" + ("." + x)) && t == (path + "[") + (b + "]" + ("." + y));
    if s == t {
      After(path + "[", a + "]" + ("." + x), b + "]" + ("." + y));
      NoDigit(i, ']');
      NoDigit(j, ']');
      CutAt(a, "." + x, ']', b, "." + y);
      Numerals.DecimalInjective(i, j);
    }
  }

  /** Steps without an id never publish under one name, in one list or in two rounds of a loop. */
  lemma UnnamedKeepApart(u: Visit, w: Visit, path: string, i: nat, j: nat)
    requires u.i < |u.steps| && w.i < |w.steps| && StepAt(u).id.None? && StepAt(w).id.None?
    requires
      (u.path == w.path && u.i != w.i) || (u.path == RoundPath(path, i) && w.path == RoundPath(path, j) && i != j)
    ensures Key(u) != Key(w)
  {
    hide RoundPath, Unnamed;
    assert OwnName(u) == Unnamed(u.i) && OwnName(w) == Unnamed(w.i) by {
      NamedAfter(u);
      NamedAfter(w);
    }
    if u.path == w.path && u.i != w.i {
      UnnamedDiffer(u.i, w.i);
      SameListApart(u.path, u.i, w.i);
    } else {
      RoundsApart(path, i, j, Unnamed(u.i), Unnamed(w.i));
      NotRoot(path, i);
      NotRoot(path, j);
    }
  }

  lemma NamedAfter(v: Visit)
    requires v.i < |v.steps| && StepAt(v).id.None?
    ensures OwnName(v) == Unnamed(v.i)
  {
  }

  lemma NotRoot(path: string, i: nat)
    ensures RoundPath(path, i) != ""
  {
  }

  // ---- What counts as true ---------------------------------------------------

  /** The same word, but for capitals. */
  predicate SameWord(m: string, word: string) {
    |m| == |word|
    && forall i :: 0 <= i < |m| ==> m[i] == word[i] || ('A' <= m[i] <= 'Z' && m[i] as int + 32 == word[i] as int)
  }

  predicate Affirms(m: string) {
    SameWord(m, "true") || SameWord(m, "1") || SameWord(m, "yes")
  }

  ghost predicate Says(text: string) {
    exists a: string, m: string, b: string :: Spaces(a) && Spaces(b) && text == a + m + b && Affirms(m)
  }

  lemma LowerIs(m: string, word: string)
    requires forall i :: 0 <= i < |word| ==> !('A' <= word[i] <= 'Z')
    ensures Lower(m) == word <==> SameWord(m, word)
  {
    if Lower(m) == word {
      forall i | 0 <= i < |m| ensures m[i] == word[i] || ('A' <= m[i] <= 'Z' && m[i] as int + 32 == word[i] as int) {
        assert Lower(m)[i] == word[i];
      }
    }
  }

  lemma AffirmsIs(m: string)
    ensures Affirms(m) <==> Lower(m) in {"true", "1", "yes"}
    ensures Affirms(m) ==> m != "" && !ExprLexer.IsSpace(m[0]) && !ExprLexer.IsSpace(m[|m| - 1])
  {
    hide Lower;
    LowerIs(m, "true");
    LowerIs(m, "1");
    LowerIs(m, "yes");
  }

  /** A text is true when it says `true`, `1` or `yes`, in any case, with space around; of booleans, only `true` is. */
  lemma TruthIs(v: Value, s: Setting)
    ensures v.Str? ==> (Truth(v, s) <==> Says(v.s))
    ensures v.Bool? ==> (Truth(v, s) <==> v.b)
    ensures v.Null? || v.List? || v.Obj? ==> !Truth(v, s)
  {
    hide Lower, Trimmed, Affirms;
    var text := PyStr(v, s.world.host);
    var a, b := TrimmedCuts(text);
    AffirmsIs(Trimmed(text));
    assert Truth(v, s) ==> Says(text);
    if Says(text) {
      var x, m, y :| Spaces(x) && Spaces(y) && text == x + m + y && Affirms(m);
      AffirmsIs(m);
      TrimmedIs(x, m, y);
    }
    assert Truth(v, s) <==> Says(text);
    if !v.Str? {
      PrintedSays(v, text, s);
    }
  }

  lemma NoSpacesAround(a: string, m: string, b: string)
    requires Spaces(a) && Spaces(b) && m != "" && !ExprLexer.IsSpace((a + m + b)[0])
    requires !ExprLexer.IsSpace((a + m + b)[|a + m + b| - 1])
    ensures a == "" && b == ""
  {
  }

  lemma BareSays(text: string)
    requires text != "" && !ExprLexer.IsSpace(text[0]) && !ExprLexer.IsSpace(text[|text| - 1])
    ensures Says(text) <==> Affirms(text)
  {
    hide Affirms, ExprLexer.IsSpace;
    if Affirms(text) {
      assert text == "" + text + "";
    }
    if Says(text) {
      var a, m, b :| Spaces(a) && Spaces(b) && text == a + m + b && Affirms(m);
      NoSpacesAround(a, m, b);
      assert text == m;
    }
  }

  lemma PrintedSays(v: Value, text: string, s: Setting)
    requires text == PyStr(v, s.world.host)
    ensures v.Bool? ==> (Says(text) <==> v.b)
    ensures v.Null? || v.List? || v.Obj? ==> !Says(text)
  {
    hide ReprItems, ReprEntries, Says;
    if v.Bool? || v.Null? || v.List? || v.Obj? {
      BareSays(text);
    }
  }
}
