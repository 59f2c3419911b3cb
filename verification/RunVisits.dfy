/**
 * The places a run passes through, at every nesting depth, and the order it passes through them: what holds at each,
 * what earlier ones leave to later ones, and how long the promise of an `optional` block lasts.
 */
module RunVisits {
  import opened Common
  import opened Tables
  import opened ExprSyntax
  import opened ExprValues
  import opened ExprEval
  import opened Blueprint
  import opened RunModel
  import opened RunLaws
  import opened OptionalBlocks
  import StepLaws
  import SeedLaws
  import Engine

  /** A list about to run its `i`-th step, and the state it will run it in. */
  datatype Visit = Visit(steps: seq<Step>, i: nat, path: string, act: string, tolerate: bool, run: Run)

  function RunStep(v: Visit, s: Setting): (Run, Option<Thrown>)
    requires v.i < |v.steps|
  {
    RunOne(v.steps[v.i], v.i, v.path, v.act, s, v.run)
  }

  /** The step threw nothing, and the list goes on to the next. */
  predicate Onwards(v: Visit, w: Visit, s: Setting) {
    && v.i < |v.steps|
    && RunStep(v, s).1.None?
    && w == v.(i := v.i + 1, run := RunStep(v, s).0)
  }

  /** The state in which a step, its guard passed, opens its blocks. */
  function Opened(v: Visit): Run
    requires v.i < |v.steps|
  {
    Emit(Tick(v.run), StepStarted(DisplayId(v.steps[v.i], v.i, v.path)))
  }

  predicate Opens(v: Visit, s: Setting) {
    && v.i < |v.steps|
    && !s.world.aborted(v.run.clock)
    && Guarded(v.steps[v.i], s, Tick(v.run)) == Ok(true)
    && IsFlow(v.steps[v.i].action)
    && PlanFlow(v.steps[v.i], s, Opened(v)).Ok?
  }

  /** The state between rounds, if the first `j` threw nothing. */
  function AfterRounds(nested: seq<Step>, variable: Option<string>, items: seq<Value>, j: nat, path: string,
                       act: string, s: Setting, run: Run): Option<Run>
    requires variable.Some? ==> j <= |items|
  {
    if j == 0 then Some(run)
    else
      match AfterRounds(nested, variable, items, j - 1, path, act, s, run)
      case None => None
      case Some(before) =>
        var (after, thrown, _) :=
          Walk(nested, 0, RoundPath(path, j - 1), act, false, s, Bound(before, variable, items, j - 1));
        if thrown.None? then Some(after) else None
  }

  /** `w` is the start of round `j`. */
  predicate Round(w: Visit, nested: seq<Step>, variable: Option<string>, items: seq<Value>, j: nat, path: string,
                  act: string, s: Setting, run: Run)
    requires variable.Some? ==> j < |items|
  {
    var before := AfterRounds(nested, variable, items, j, path, act, s, run);
    before.Some?
    && w == Visit(nested, 0, RoundPath(path, j), act, false, Bound(before.value, variable, items, j))
  }

  /** The step is a loop, and `w` is the start of its round `j`. */
  predicate StartsRound(v: Visit, w: Visit, j: nat, s: Setting) {
    Opens(v, s)
    && var path := StepPath(v.steps[v.i], v.i, v.path);
       var act := EffectiveAct(v.steps[v.i], v.act);
       match PlanFlow(v.steps[v.i], s, Opened(v)).value
       case Times(n, nested) => j < n && Round(w, nested, None, [], j, path, act, s, Opened(v))
       case Each(variable, items, nested) =>
         j < |items| && Round(w, nested, Some(variable), items, j, path, act, s, Opened(v))
       case _ => false
  }

  /** The step has one block to run, and `w` is its start. */
  predicate StartsBlock(v: Visit, w: Visit, s: Setting) {
    Opens(v, s)
    && var path := StepPath(v.steps[v.i], v.i, v.path);
       var act := EffectiveAct(v.steps[v.i], v.act);
       match PlanFlow(v.steps[v.i], s, Opened(v)).value
       case Branch(_, nested) => w == Visit(nested, 0, path, act, false, Opened(v))
       case Tolerate(nested) => w == Visit(nested, 0, path, act, true, Opened(v))
       case _ => false
  }

  /** The step is a flow step, and `w` is the start of a block it runs. */
  ghost predicate Enters(v: Visit, w: Visit, s: Setting) {
    StartsBlock(v, w, s) || exists j: nat :: StartsRound(v, w, j, s)
  }

  /** The first visit of a run that starts. */
  predicate Begins(v: Visit, program: Engine.Program, s: Setting) {
    var (bound, problem) := Resolve(s.act, s, Tick(Engine.FRESH));
    problem.None? && v == Visit(program.steps, 0, "", s.act, false, Emit(bound, RunStarted))
  }

  /** One visit leads to the next: along its list, or into a block. */
  ghost predicate Moves(v: Visit, w: Visit, s: Setting) {
    Onwards(v, w, s) || Enters(v, w, s)
  }

  /** How a run got to a visit, from its start. */
  ghost predicate Route(vs: seq<Visit>, program: Engine.Program, s: Setting) {
    && vs != [] && Begins(vs[0], program, s)
    && forall k :: 0 <= k < |vs| - 1 ==> Moves(vs[k], vs[k + 1], s)
  }

  function Last(vs: seq<Visit>): Visit
    requires vs != []
  {
    vs[|vs| - 1]
  }

  /** From `v`, going to `a` comes before going to `b`: a block before the next step, a round before later ones. */
  ghost predicate Overtakes(v: Visit, a: Visit, b: Visit, s: Setting) {
    || (Enters(v, a, s) && Onwards(v, b, s))
    || exists i: nat, j: nat :: i < j && StartsRound(v, a, i, s) && StartsRound(v, b, j, s)
  }

  /** Where two routes part, and the first takes the earlier way. */
  ghost predicate PartsAt(us: seq<Visit>, ws: seq<Visit>, p: nat, s: Setting) {
    && p + 1 < |us| && p + 1 < |ws|
    && us[..p + 1] == ws[..p + 1]
    && Overtakes(us[p], us[p + 1], ws[p + 1], s)
  }

  /** All that follows on the first route, to the end of its blocks, is over when the second gets to its end. */
  ghost predicate Before(us: seq<Visit>, ws: seq<Visit>, s: Setting) {
    exists p: nat :: PartsAt(us, ws, p, s)
  }

  /** The state in which the rest of the list leaves off, whatever way it ends. */
  function End(v: Visit, s: Setting): Run
    requires v.i <= |v.steps|
  {
    Walk(v.steps, v.i, v.path, v.act, v.tolerate, s, v.run).0
  }

  /** What holds wherever a step is about to run. */
  ghost predicate InOrder(run: Run) {
    Steady(run) && forall name :: name in RESERVED ==> Find(run.scope, name).None?
  }

  lemma KeysKeptCompose<T>(a: Table<T>, b: Table<T>, c: Table<T>)
    requires KeysKept(a, b) && KeysKept(b, c)
    ensures KeysKept(a, c)
  {
  }

  lemma WalkInOrder(nested: seq<Step>, path: string, act: string, tolerate: bool, s: Setting, run: Run)
    requires InOrder(run) && Walk(nested, 0, path, act, tolerate, s, run).1.None?
    ensures var after := Walk(nested, 0, path, act, tolerate, s, run).0;
      InOrder(after) && KeysKept(run.outputs, after.outputs)
  {
    hide Walk, Reported, TypedOf, Debt, Closing, Skipping;
    StepLaws.WalkKeeps(nested, 0, path, act, tolerate, s, run);
  }

  lemma BoundInOrder(run: Run, variable: Option<string>, items: seq<Value>, j: nat)
    requires InOrder(run) && (variable.Some? ==> j < |items| && variable.value !in RESERVED)
    ensures InOrder(Bound(run, variable, items, j))
  {
    hide Reported, TypedOf;
    if variable.Some? {
      forall name | name in RESERVED ensures Find(Put(run.scope, variable.value, items[j]), name).None? {
        FindPut(run.scope, variable.value, items[j], name);
      }
    }
  }

  lemma {:induction false} RoundsInOrder(nested: seq<Step>, variable: Option<string>, items: seq<Value>, j: nat,
                                         path: string, act: string, s: Setting, run: Run)
    requires InOrder(run) && (variable.Some? ==> j <= |items| && variable.value !in RESERVED)
    ensures var after := AfterRounds(nested, variable, items, j, path, act, s, run);
      after.Some? ==> InOrder(after.value) && KeysKept(run.outputs, after.value.outputs)
  {
    hide Walk, InOrder, RoundPath;
    if j > 0 && AfterRounds(nested, variable, items, j, path, act, s, run).Some? {
      RoundsInOrder(nested, variable, items, j - 1, path, act, s, run);
      var before := AfterRounds(nested, variable, items, j - 1, path, act, s, run).value;
      BoundInOrder(before, variable, items, j - 1);
      WalkInOrder(nested, RoundPath(path, j - 1), act, false, s, Bound(before, variable, items, j - 1));
    }
  }

  lemma RoundInOrder(w: Visit, nested: seq<Step>, variable: Option<string>, items: seq<Value>, j: nat, path: string,
                     act: string, s: Setting, run: Run)
    requires InOrder(run) && (variable.Some? ==> j < |items| && variable.value !in RESERVED)
    requires Round(w, nested, variable, items, j, path, act, s, run)
    ensures InOrder(w.run) && KeysKept(run.outputs, w.run.outputs)
  {
    hide InOrder;
    RoundsInOrder(nested, variable, items, j, path, act, s, run);
    BoundInOrder(AfterRounds(nested, variable, items, j, path, act, s, run).value, variable, items, j);
  }

  lemma OpenedInOrder(v: Visit)
    requires InOrder(v.run) && v.i < |v.steps|
    ensures InOrder(Opened(v)) && Opened(v).outputs == v.run.outputs
  {
    EmitKeepsBooks(Tick(v.run), StepStarted(DisplayId(v.steps[v.i], v.i, v.path)));
  }

  lemma EntersInOrder(v: Visit, w: Visit, s: Setting)
    requires InOrder(v.run) && Enters(v, w, s)
    ensures InOrder(w.run) && KeysKept(v.run.outputs, w.run.outputs)
  {
    hide InOrder, PlanFlow, Round, StepPath, Guarded;
    OpenedInOrder(v);
    if !StartsBlock(v, w, s) {
      var j: nat :| StartsRound(v, w, j, s);
      var path := StepPath(v.steps[v.i], v.i, v.path);
      var act := EffectiveAct(v.steps[v.i], v.act);
      match PlanFlow(v.steps[v.i], s, Opened(v)).value {
        case Times(n, nested) => RoundInOrder(w, nested, None, [], j, path, act, s, Opened(v));
        case Each(variable, items, nested) =>
          RoundInOrder(w, nested, Some(variable), items, j, path, act, s, Opened(v));
        case _ =>
      }
    }
  }

  lemma OnwardsInOrder(v: Visit, w: Visit, s: Setting)
    requires InOrder(v.run) && Onwards(v, w, s)
    ensures InOrder(w.run) && KeysKept(v.run.outputs, w.run.outputs)
  {
    hide RunOne, Reported, TypedOf, Debt, Closing, Skipping;
    StepLaws.RunOneKeeps(v.steps[v.i], v.i, v.path, v.act, s, v.run);
  }

  lemma FreshInOrder(v: Visit, program: Engine.Program, s: Setting)
    requires Begins(v, program, s)
    ensures InOrder(v.run) && v.i <= |v.steps|
  {
    hide Resolve;
    var start := Tick(Engine.FRESH);
    assert Steady(start);
    StepLaws.ResolveKeeps(s.act, s, start);
    EmitKeepsBooks(Resolve(s.act, s, start).0, RunStarted);
  }

  lemma MovesInOrder(v: Visit, w: Visit, s: Setting)
    requires InOrder(v.run) && Moves(v, w, s)
    ensures InOrder(w.run) && KeysKept(v.run.outputs, w.run.outputs) && v.i < |v.steps| && w.i <= |w.steps|
  {
    hide InOrder;
    if Onwards(v, w, s) {
      OnwardsInOrder(v, w, s);
    } else {
      EntersInOrder(v, w, s);
      EntersAtHead(v, w, s);
    }
  }

  lemma EntersAtHead(v: Visit, w: Visit, s: Setting)
    requires Enters(v, w, s)
    ensures w.i == 0 && Opens(v, s)
  {
    hide PlanFlow, Opened, Guarded;
  }

  lemma {:induction false} RouteInOrder(vs: seq<Visit>, program: Engine.Program, s: Setting, j: nat, k: nat)
    requires Route(vs, program, s) && j <= k < |vs|
    ensures InOrder(vs[k].run) && KeysKept(vs[j].run.outputs, vs[k].run.outputs) && vs[k].i <= |vs[k].steps|
    decreases k
  {
    hide InOrder, Begins, Moves;
    if k == 0 {
      FreshInOrder(vs[0], program, s);
    } else {
      RouteInOrder(vs, program, s, if j < k then j else k - 1, k - 1);
      MovesInOrder(vs[k - 1], vs[k], s);
    }
  }

  // What a block publishes is there when it is over.

  /** The state the rest of a list leaves keeps what was published before it, and the scope. */
  lemma EndKeeps(v: Visit, s: Setting)
    requires InOrder(v.run) && v.i <= |v.steps|
    ensures KeysKept(v.run.outputs, End(v, s).outputs) && End(v, s).scope == v.run.scope
  {
    hide Walk, Reported, TypedOf, Debt, Closing, Skipping;
    StepLaws.WalkKeeps(v.steps, v.i, v.path, v.act, v.tolerate, s, v.run);
  }

  lemma OnwardsEnds(v: Visit, w: Visit, s: Setting)
    requires Onwards(v, w, s)
    ensures End(w, s) == End(v, s)
  {
    hide RunOne;
  }

  lemma StepEnds(v: Visit, s: Setting)
    requires InOrder(v.run) && v.i < |v.steps|
    ensures KeysKept(RunStep(v, s).0.outputs, End(v, s).outputs)
  {
    hide InOrder, RunOne, SkipRest, Seed, SeedLaws.Seeds;
    var (after, thrown) := RunStep(v, s);
    if thrown.None? {
      var w := v.(i := v.i + 1, run := after);
      OnwardsInOrder(v, w, s);
      OnwardsEnds(v, w, s);
      EndKeeps(w, s);
    } else if v.tolerate && thrown.value.StepFailed? {
      var seeded := Seeded(after, v.steps[v.i]);
      SeedLaws.SeedSeeds(after.outputs, v.steps[v.i]);
      SeedLaws.SkipRestSeeds(v.steps, v.i + 1, v.path, seeded);
      StepLaws.SeedsKeepKeys(after.outputs, seeded.outputs, Ids(v.steps[v.i]));
      StepLaws.SeedsKeepKeys(seeded.outputs, End(v, s).outputs, AllIds(v.steps[v.i + 1..]));
    }
  }

  lemma SettleKeepsKeys(step: Step, index: nat, path: string, run: Run, attempt: Attempt)
    ensures KeysKept(run.outputs, Settle(step, index, path, run, attempt).0.outputs)
  {
    hide DisplayId, OutputKey;
    if attempt.Finished? {
      PutKeepsKeys(run.outputs, OutputKey(step, index, path), attempt.outputs);
    }
  }

  /** A step that opens its blocks ends with what running them left. */
  lemma FlowEnds(v: Visit, s: Setting)
    requires Opens(v, s)
    ensures var path := StepPath(v.steps[v.i], v.i, v.path);
      var flow := RunFlow(v.steps[v.i], path, EffectiveAct(v.steps[v.i], v.act), s, Opened(v)).0;
      KeysKept(flow.outputs, RunStep(v, s).0.outputs)
  {
    hide RunFlow, PlanFlow, Guarded, Settle, StepPath, DisplayId;
    var step := v.steps[v.i];
    var act := EffectiveAct(step, v.act);
    var (after, attempt) := RunFlow(step, StepPath(step, v.i, v.path), act, s, Opened(v));
    assert Try(step, v.i, v.path, act, s, Tick(v.run)) == (after, attempt);
    SettleKeepsKeys(step, v.i, v.path, after, attempt);
  }

  lemma {:induction false} RoundsResume(nested: seq<Step>, variable: Option<string>, items: seq<Value>, j: nat, n: nat,
                                        path: string, act: string, s: Setting, run: Run)
    requires j <= n && (variable.Some? ==> n == |items|)
    requires AfterRounds(nested, variable, items, j, path, act, s, run).Some?
    ensures Rounds(nested, variable, items, 0, n, path, act, s, run) ==
      Rounds(nested, variable, items, j, n, path, act, s,
             AfterRounds(nested, variable, items, j, path, act, s, run).value)
  {
    hide Walk, Bound, RoundPath;
    if j > 0 {
      RoundsResume(nested, variable, items, j - 1, n, path, act, s, run);
    }
  }

  lemma RestOfRounds(nested: seq<Step>, variable: Option<string>, items: seq<Value>, j: nat, n: nat, path: string,
                     act: string, s: Setting, run: Run)
    requires InOrder(run) && j <= n && (variable.Some? ==> n == |items|)
    ensures KeysKept(run.outputs, Rounds(nested, variable, items, j, n, path, act, s, run).0.outputs)
  {
    hide Rounds, Restored, Reported, TypedOf, Debt, Closing, Skipping;
    StepLaws.RoundsKeep(nested, variable, items, j, n, path, act, s, run, run.scope);
  }

  /** A round's publications are there when the loop is over, however it ends. */
  lemma RoundEnds(w: Visit, nested: seq<Step>, variable: Option<string>, items: seq<Value>, j: nat, n: nat,
                  path: string, act: string, s: Setting, run: Run)
    requires InOrder(run) && j < n && (variable.Some? ==> n == |items| && variable.value !in RESERVED)
    requires Round(w, nested, variable, items, j, path, act, s, run)
    ensures w.i == 0 && KeysKept(End(w, s).outputs, Rounds(nested, variable, items, 0, n, path, act, s, run).0.outputs)
  {
    hide InOrder, Walk, Bound, RoundPath;
    RoundsResume(nested, variable, items, j, n, path, act, s, run);
    RoundInOrder(w, nested, variable, items, j, path, act, s, run);
    var (after, thrown, _) := Walk(nested, 0, RoundPath(path, j), act, false, s, w.run);
    if thrown.None? {
      WalkInOrder(nested, RoundPath(path, j), act, false, s, w.run);
      RestOfRounds(nested, variable, items, j + 1, n, path, act, s, after);
    }
  }

  /** What a block publishes is there when its step is over, however either of them ends. */
  lemma EntersEnds(v: Visit, w: Visit, s: Setting)
    requires InOrder(v.run) && Enters(v, w, s)
    ensures w.i == 0 && KeysKept(End(w, s).outputs, RunStep(v, s).0.outputs)
  {
    hide InOrder, PlanFlow, Round, Walk, Rounds, StepPath, RunStep, Opened, Restored;
    EntersAtHead(v, w, s);
    OpenedInOrder(v);
    FlowEnds(v, s);
    var path := StepPath(v.steps[v.i], v.i, v.path);
    var act := EffectiveAct(v.steps[v.i], v.act);
    if !StartsBlock(v, w, s) {
      var j: nat :| StartsRound(v, w, j, s);
      match PlanFlow(v.steps[v.i], s, Opened(v)).value {
        case Times(n, nested) => RoundEnds(w, nested, None, [], j, n, path, act, s, Opened(v));
        case Each(variable, items, nested) =>
          RoundEnds(w, nested, Some(variable), items, j, |items|, path, act, s, Opened(v));
        case _ =>
      }
    }
  }

  /** Along a route, what the later list leaves is there when the earlier one leaves off. */
  lemma {:induction false} RouteEnds(vs: seq<Visit>, program: Engine.Program, s: Setting, j: nat, k: nat)
    requires Route(vs, program, s) && j <= k < |vs|
    ensures vs[j].i <= |vs[j].steps| && vs[k].i <= |vs[k].steps|
    ensures KeysKept(End(vs[k], s).outputs, End(vs[j], s).outputs)
    decreases k - j
  {
    hide InOrder, Begins, Onwards, Enters, End, RunStep;
    RouteInOrder(vs, program, s, j, j);
    RouteInOrder(vs, program, s, k, k);
    if j < k {
      RouteInOrder(vs, program, s, k - 1, k - 1);
      RouteEnds(vs, program, s, j, k - 1);
      if Onwards(vs[k - 1], vs[k], s) {
        OnwardsEnds(vs[k - 1], vs[k], s);
      } else {
        EntersAtHead(vs[k - 1], vs[k], s);
        EntersEnds(vs[k - 1], vs[k], s);
        StepEnds(vs[k - 1], s);
        KeysKeptCompose(End(vs[k], s).outputs, RunStep(vs[k - 1], s).0.outputs, End(vs[k - 1], s).outputs);
      }
      KeysKeptCompose(End(vs[k], s).outputs, End(vs[k - 1], s).outputs, End(vs[j], s).outputs);
    }
  }

  // The order of a run.

  lemma {:induction false} RoundsGrow(nested: seq<Step>, variable: Option<string>, items: seq<Value>, i: nat, j: nat,
                                      path: string, act: string, s: Setting, run: Run)
    requires InOrder(run) && i <= j && (variable.Some? ==> j <= |items| && variable.value !in RESERVED)
    requires AfterRounds(nested, variable, items, j, path, act, s, run).Some?
    ensures AfterRounds(nested, variable, items, i, path, act, s, run).Some?
    ensures KeysKept(AfterRounds(nested, variable, items, i, path, act, s, run).value.outputs,
                     AfterRounds(nested, variable, items, j, path, act, s, run).value.outputs)
    decreases j - i
  {
    hide InOrder, Walk, RoundPath;
    if i < j {
      var before := AfterRounds(nested, variable, items, j - 1, path, act, s, run).value;
      RoundsInOrder(nested, variable, items, j - 1, path, act, s, run);
      BoundInOrder(before, variable, items, j - 1);
      WalkInOrder(nested, RoundPath(path, j - 1), act, false, s, Bound(before, variable, items, j - 1));
      RoundsGrow(nested, variable, items, i, j - 1, path, act, s, run);
    }
  }

  lemma LaterRound(a: Visit, b: Visit, nested: seq<Step>, variable: Option<string>, items: seq<Value>, i: nat, j: nat,
                   path: string, act: string, s: Setting, run: Run)
    requires InOrder(run) && i < j && (variable.Some? ==> j < |items| && variable.value !in RESERVED)
    requires Round(a, nested, variable, items, i, path, act, s, run)
    requires Round(b, nested, variable, items, j, path, act, s, run)
    ensures a.i == 0 && KeysKept(End(a, s).outputs, b.run.outputs)
  {
    hide InOrder, Walk, RoundPath;
    RoundsGrow(nested, variable, items, i + 1, j, path, act, s, run);
    assert AfterRounds(nested, variable, items, i + 1, path, act, s, run) == Some(End(a, s));
  }

  /** What the earlier way publishes is there when the later way begins. */
  lemma OvertakenKeeps(v: Visit, a: Visit, b: Visit, s: Setting)
    requires InOrder(v.run) && Overtakes(v, a, b, s)
    ensures a.i == 0 && KeysKept(End(a, s).outputs, b.run.outputs)
  {
    hide InOrder, PlanFlow, Round, Walk, StepPath, RunStep, Opened, Guarded, End;
    if Enters(v, a, s) && Onwards(v, b, s) {
      EntersEnds(v, a, s);
    } else {
      var i: nat, j: nat :| i < j && StartsRound(v, a, i, s) && StartsRound(v, b, j, s);
      OpenedInOrder(v);
      var path := StepPath(v.steps[v.i], v.i, v.path);
      var act := EffectiveAct(v.steps[v.i], v.act);
      match PlanFlow(v.steps[v.i], s, Opened(v)).value {
        case Times(n, nested) => LaterRound(a, b, nested, None, [], i, j, path, act, s, Opened(v));
        case Each(variable, items, nested) =>
          LaterRound(a, b, nested, Some(variable), items, i, j, path, act, s, Opened(v));
        case _ =>
      }
    }
  }

  /** From where a route is, all that its list and blocks will leave is there on any route it comes before. */
  lemma BeforeKeeps(us: seq<Visit>, ws: seq<Visit>, program: Engine.Program, s: Setting)
    requires Route(us, program, s) && Route(ws, program, s) && Before(us, ws, s)
    ensures Last(us).i <= |Last(us).steps|
    ensures KeysKept(End(Last(us), s).outputs, Last(ws).run.outputs)
  {
    hide InOrder, Begins, Moves, Overtakes, End;
    var p: nat :| PartsAt(us, ws, p, s);
    assert us[p] == us[..p + 1][p] == ws[p];
    RouteInOrder(us, program, s, p, p);
    RouteEnds(us, program, s, p + 1, |us| - 1);
    OvertakenKeeps(us[p], us[p + 1], ws[p + 1], s);
    RouteInOrder(ws, program, s, p + 1, |ws| - 1);
    KeysKeptCompose(End(Last(us), s).outputs, End(us[p + 1], s).outputs, ws[p + 1].run.outputs);
    KeysKeptCompose(End(Last(us), s).outputs, ws[p + 1].run.outputs, Last(ws).run.outputs);
  }

  /**
   * Wherever a run gets to, its books are straight, no name hides the reserved tables, and all that was published at
   * any earlier place of the run still is: in an enclosing list, in an earlier round, or in a block now over. So it is
   * at the end of the run.
   */
  lemma EveryVisitInOrder(us: seq<Visit>, ws: seq<Visit>, program: Engine.Program, s: Setting)
    requires Route(us, program, s) && Route(ws, program, s)
    ensures InOrder(Last(ws).run)
    ensures us <= ws || Before(us, ws, s) ==> KeysKept(Last(us).run.outputs, Last(ws).run.outputs)
    ensures ws[0].i <= |ws[0].steps| && KeysKept(Last(ws).run.outputs, End(ws[0], s).outputs)
  {
    hide InOrder, Begins, Moves, Before, End;
    RouteInOrder(us, program, s, |us| - 1, |us| - 1);
    RouteInOrder(ws, program, s, |ws| - 1, |ws| - 1);
    if us <= ws {
      RouteInOrder(ws, program, s, |us| - 1, |ws| - 1);
    } else if Before(us, ws, s) {
      BeforeKeeps(us, ws, program, s);
      EndKeeps(Last(us), s);
      KeysKeptCompose(Last(us).run.outputs, End(Last(us), s).outputs, Last(ws).run.outputs);
    }
    RouteEnds(ws, program, s, 0, |ws| - 1);
    EndKeeps(Last(ws), s);
    KeysKeptCompose(Last(ws).run.outputs, End(Last(ws), s).outputs, End(ws[0], s).outputs);
  }

  lemma FirstDifference(us: seq<Visit>, ws: seq<Visit>) returns (p: nat)
    requires us != [] && ws != [] && us[0] == ws[0] && !(us <= ws) && !(ws <= us)
    ensures p + 1 < |us| && p + 1 < |ws| && us[..p + 1] == ws[..p + 1] && us[p + 1] != ws[p + 1]
  {
    p := 0;
    while p + 1 < |us| && p + 1 < |ws| && us[p + 1] == ws[p + 1]
      invariant p < |us| && p < |ws| && us[..p + 1] == ws[..p + 1]
    {
      p := p + 1;
    }
    assert us[..|us|] == us && ws[..|ws|] == ws;
  }

  lemma OneWayFirst(v: Visit, a: Visit, b: Visit, s: Setting)
    requires Moves(v, a, s) && Moves(v, b, s) && a != b
    ensures Overtakes(v, a, b, s) || Overtakes(v, b, a, s)
  {
    hide PlanFlow, RunStep, Opened, StepPath, Guarded, AfterRounds;
    if Enters(v, a, s) && Enters(v, b, s) {
      var i: nat :| StartsRound(v, a, i, s);
      var j: nat :| StartsRound(v, b, j, s);
      assert i != j;
    }
  }

  /** The order is total: of any two places of one run, one comes first. */
  lemma AnyTwoAreOrdered(us: seq<Visit>, ws: seq<Visit>, program: Engine.Program, s: Setting)
    requires Route(us, program, s) && Route(ws, program, s)
    ensures us <= ws || ws <= us || Before(us, ws, s) || Before(ws, us, s)
  {
    hide Moves, Overtakes, Resolve;
    if !(us <= ws) && !(ws <= us) {
      var p := FirstDifference(us, ws);
      assert us[p] == us[..p + 1][p] == ws[p];
      OneWayFirst(us[p], us[p + 1], ws[p + 1], s);
      assert PartsAt(us, ws, p, s) || PartsAt(ws, us, p, s);
    }
  }

  // The promise of a block that gave way.

  /** The block that `e` starts, tolerated, gave way. */
  predicate GaveWay(e: Visit, s: Setting)
    requires e.i <= |e.steps|
  {
    Walk(e.steps, e.i, e.path, e.act, e.tolerate, s, e.run).2
  }

  lemma EntersTolerant(v: Visit, e: Visit, s: Setting)
    requires v.i < |v.steps| && v.steps[v.i].action == "optional" && Enters(v, e, s)
    ensures StartsBlock(v, e, s) && e.tolerate && e.i == 0
    ensures forall j: nat :: !StartsRound(v, e, j, s)
  {
    hide PlanIf, PlanRepeat, PlanForEach, Guarded, StepPath;
  }

  /** Reading a field of any of these steps with a default never raises. */
  ghost predicate CanBeRead(ids: set<string>, s: Setting, run: Run) {
    forall id: string, field: string, fallback: Literal :: id in ids ==>
      Evaluate(DefaultOn(id, field, fallback), TemplateContext(s, run), s.world.host).Ok?
  }

  lemma PublishedCanBeRead(ids: set<string>, before: SeedLaws.Outputs, after: SeedLaws.Outputs, s: Setting, run: Run)
    requires SeedLaws.Seeds(before, after, ids) && KeysKept(after, run.outputs) && Find(run.scope, "steps").None?
    ensures CanBeRead(ids, s, run)
  {
    hide Evaluate, DefaultOn, TemplateContext, SeedLaws.Seeds;
    forall id: string, field: string, fallback: Literal | id in ids
      ensures Evaluate(DefaultOn(id, field, fallback), TemplateContext(s, run), s.world.host).Ok?
    {
      SeededIsPublished(before, after, ids, id);
      DefaultNeedsThePublication(id, field, fallback, s, run);
    }
  }

  /** What the block left is there in every place the block comes before. */
  lemma BlockKeeps(us: seq<Visit>, e: Visit, ws: seq<Visit>, program: Engine.Program, s: Setting)
    requires Route(us, program, s) && Route(ws, program, s) && Enters(Last(us), e, s)
    requires Before(us + [e], ws, s)
    ensures e.i == 0 && KeysKept(End(e, s).outputs, Last(ws).run.outputs)
  {
    hide InOrder, Begins, Enters, Before, End;
    var vs := us + [e];
    forall k | 0 <= k < |vs| - 1 ensures Moves(vs[k], vs[k + 1], s) {
      if k < |us| - 1 {
        assert vs[k] == us[k] && vs[k + 1] == us[k + 1];
      }
    }
    EntersAtHead(Last(us), e, s);
    BeforeKeeps(vs, ws, program, s);
  }

  /**
   * Once an `optional` block has given way at step `f`, every identified step from `f` on, at any nesting depth, can be
   * read with a default at every later place of the run (after the block, after the blocks around it, in later rounds
   * of the loops around it) and at its end, where the outputs of the Blueprint are read.
   */
  lemma OptionalStaysReadable(us: seq<Visit>, e: Visit, program: Engine.Program, s: Setting) returns (f: nat)
    requires Route(us, program, s) && Last(us).i < |Last(us).steps|
    requires Last(us).steps[Last(us).i].action == "optional"
    requires Enters(Last(us), e, s) && e.i == 0 && GaveWay(e, s)
    ensures f < |e.steps|
    ensures forall ws :: Route(ws, program, s) && Before(us + [e], ws, s) ==>
      CanBeRead(AllIds(e.steps[f..]), s, Last(ws).run)
    ensures us[0].i <= |us[0].steps| && CanBeRead(AllIds(e.steps[f..]), s, End(us[0], s))
  {
    hide InOrder, Begins, Moves, Enters, Before, Walk, RunOne, AllIds, CanBeRead, RunLaws.KeysKept, SeedLaws.Seeds;
    var last := |us| - 1;
    RouteInOrder(us, program, s, last, last);
    EntersInOrder(Last(us), e, s);
    InOrderMeans(e.run);
    EntersTolerant(Last(us), e, s);
    var reached, broken;
    f, reached, broken := OptionalDefaults(e.steps, e.path, e.act, s, e.run);
    var ids := AllIds(e.steps[f..]);
    forall ws | Route(ws, program, s) && Before(us + [e], ws, s) ensures CanBeRead(ids, s, Last(ws).run) {
      BlockKeeps(us, e, ws, program, s);
      RouteInOrder(ws, program, s, |ws| - 1, |ws| - 1);
      InOrderMeans(Last(ws).run);
      PublishedCanBeRead(ids, broken.outputs, End(e, s).outputs, s, Last(ws).run);
    }
    EntersEnds(Last(us), e, s);
    StepEnds(Last(us), s);
    RouteEnds(us, program, s, 0, last);
    KeysKeptCompose(End(e, s).outputs, RunStep(Last(us), s).0.outputs, End(Last(us), s).outputs);
    KeysKeptCompose(End(e, s).outputs, End(Last(us), s).outputs, End(us[0], s).outputs);
    RouteInOrder(us, program, s, 0, 0);
    InOrderMeans(us[0].run);
    EndKeeps(us[0], s);
    PublishedCanBeRead(ids, broken.outputs, End(e, s).outputs, s, End(us[0], s));
  }

  lemma InOrderMeans(run: Run)
    requires InOrder(run)
    ensures Steady(run) && Find(run.scope, "steps").None?
  {
  }
}
