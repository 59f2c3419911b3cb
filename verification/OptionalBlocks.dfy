/** The writing rule of `optional` blocks: what a failed block promises to the expressions that read it. */
module OptionalBlocks {
  import opened Common
  import opened Tables
  import opened ExprSyntax
  import opened ExprValues
  import opened ExprEval
  import opened Blueprint
  import opened RunModel
  import RunLaws
  import StepLaws
  import SeedLaws

  /** `steps.<id>.<field> | default(<fallback>)` */
  function DefaultOn(id: string, field: string, fallback: Literal): Expr {
    Filter(Attribute(Attribute(Var("steps"), id), field), "default", [Lit(fallback)])
  }

  // Reading the template context.

  lemma {:induction false} FindOutput(outputs: Table<Table<Value>>, id: string)
    ensures Find(OutputTable(outputs), id) ==
      if Find(outputs, id).Some? then Some(Obj(Find(outputs, id).value)) else None
  {
    if outputs != [] {
      FindOutput(outputs[1..], id);
      assert OutputTable(outputs)[1..] == OutputTable(outputs[1..]);
    }
  }

  lemma {:induction false} FindMerged(base: Table<Value>, over: Table<Value>, key: string)
    requires Find(over, key).None?
    ensures Find(Merge(base, over), key) == Find(base, key)
    decreases |over|
  {
    if over != [] {
      FindPut(base, over[0].0, over[0].1, key);
      FindMerged(Put(base, over[0].0, over[0].1), over[1..], key);
    }
  }

  lemma StepsVisible(s: Setting, run: Run)
    requires Find(run.scope, "steps").None?
    ensures Find(TemplateContext(s, run), "steps") == Some(Obj(OutputTable(run.outputs)))
  {
    FindMerged(ReservedTables(s, run), run.scope, "steps");
    FindLast(ReservedTables(s, run), "steps");
  }

  lemma {:induction false} FindLast<T>(t: Table<T>, key: string)
    requires t != [] && t[|t| - 1].0 == key
    requires forall i :: 0 <= i < |t| - 1 ==> t[i].0 != key
    ensures Find(t, key) == Some(t[|t| - 1].1)
  {
    if |t| > 1 {
      FindLast(t[1..], key);
    }
  }

  /** A loop variable never shadows the reserved tables: inside its rounds `steps` reads as outside. */
  lemma LoopVariableShadowsNothing(step: Step, s: Setting, run: Run, i: nat)
    requires PlanFlow(step, s, run).Ok? && PlanFlow(step, s, run).value.Each?
    requires i < |PlanFlow(step, s, run).value.items|
    requires forall name :: name in RESERVED ==> Find(run.scope, name).None?
    ensures var plan := PlanFlow(step, s, run).value;
      forall name :: name in RESERVED ==> Find(Bound(run, Some(plan.variable), plan.items, i).scope, name).None?
  {
    hide PlanIf, PlanRepeat, PlanForEach, PlanOptional;
    var plan := PlanFlow(step, s, run).value;
    assert plan.variable !in RESERVED;
    forall name | name in RESERVED ensures Find(Put(run.scope, plan.variable, plan.items[i]), name).None? {
      FindPut(run.scope, plan.variable, plan.items[i], name);
    }
  }

  /**
   * The default applies exactly when the step has published: a missing field takes the fallback, and
   * a step that never published is an undefined variable that no default can catch.
   */
  lemma DefaultNeedsThePublication(id: string, field: string, fallback: Literal, s: Setting, run: Run)
    requires Find(run.scope, "steps").None?
    ensures var answer := Evaluate(DefaultOn(id, field, fallback), TemplateContext(s, run), s.world.host);
      match Find(run.outputs, id)
      case None => answer == Err(UndefinedVariable)
      case Some(table) =>
        answer == Ok(if Find(table, field).Some? && !Find(table, field).value.Undefined?
                     then Find(table, field).value else LiteralValue(fallback))
  {
    var ctx := TemplateContext(s, run);
    var host := s.world.host;
    var published := Obj(OutputTable(run.outputs));
    StepsVisible(s, run);
    FindOutput(run.outputs, id);
    ReadField(id, field, ctx, host, published, OutputTable(run.outputs));
    DefaultTaken(Attribute(Attribute(Var("steps"), id), field), fallback, ctx, host);
  }

  lemma ReadField(id: string, field: string, ctx: Context, host: Host, published: Value, table: Table<Value>)
    requires Find(ctx, "steps") == Some(published) && published == Obj(table)
    requires Find(table, id).Some? ==> Find(table, id).value.Obj?
    ensures Evaluate(Attribute(Attribute(Var("steps"), id), field), ctx, host) ==
      if Find(table, id).None? then Err(UndefinedVariable)
      else Ok(Member(Find(table, id).value, Str(field), host))
  {
    hide Find;
    assert Evaluate(Var("steps"), ctx, host) == Ok(published);
    assert UseOf(Var("steps"), ctx, host) == Ok(published);
    assert Evaluate(Attribute(Var("steps"), id), ctx, host) == Ok(Member(published, Str(id), host));
    assert PyStr(Str(id), host) == id;
  }

  lemma DefaultTaken(target: Expr, fallback: Literal, ctx: Context, host: Host)
    ensures Evaluate(Filter(target, "default", [Lit(fallback)]), ctx, host) ==
      match Evaluate(target, ctx, host)
      case Err(e) => Err(e)
      case Ok(v) => Ok(if v.Undefined? then LiteralValue(fallback) else v)
  {
    var args := [Lit(fallback)];
    assert args[1..] == [];
    assert UseOf(Lit(fallback), ctx, host) == Ok(LiteralValue(fallback));
    assert EvaluateAll([], ctx, host) == Ok([]);
    assert EvaluateAll(args, ctx, host) == Ok([LiteralValue(fallback)] + []);
  }

  // A block that gave way.

  /** Where a tolerated list was cut: step `f` failed, and everything from it on was seeded. */
  lemma {:induction false} CutPoint(steps: seq<Step>, i: nat, path: string, act: string, s: Setting, run: Run)
    returns (f: nat, reached: Run, broken: Run)
    requires i <= |steps| && Walk(steps, i, path, act, true, s, run).2
    ensures i <= f < |steps|
    ensures RunOne(steps[f], f, path, act, s, reached).0 == broken
    ensures var thrown := RunOne(steps[f], f, path, act, s, reached).1; thrown.Some? && thrown.value.StepFailed?
    ensures Walk(steps, i, path, act, true, s, run).0 == SkipRest(steps, f + 1, path, Seeded(broken, steps[f]))
    ensures Walk(steps, i, path, act, true, s, run).1 == None
    decreases |steps| - i
  {
    hide RunOne, SkipRest, Seed;
    var (after, thrown) := RunOne(steps[i], i, path, act, s, run);
    if thrown.None? {
      f, reached, broken := CutPoint(steps, i + 1, path, act, s, after);
    } else {
      f, reached, broken := i, run, after;
    }
  }

  /**
   * After an `optional` block gave way at step `f`, every identified step from `f` on, at any nesting
   * depth, can be read with a default; what was already published is exactly as it was.
   */
  lemma OptionalDefaults(steps: seq<Step>, path: string, act: string, s: Setting, run: Run)
    returns (f: nat, reached: Run, broken: Run)
    requires Find(run.scope, "steps").None? && RunLaws.Steady(run)
    requires Walk(steps, 0, path, act, true, s, run).2
    ensures f < |steps| && RunOne(steps[f], f, path, act, s, reached).0 == broken
    ensures var after := Walk(steps, 0, path, act, true, s, run).0;
      && SeedLaws.Seeds(broken.outputs, after.outputs, AllIds(steps[f..]))
      && forall id: string, field: string, fallback: Literal :: id in AllIds(steps[f..]) ==>
           Evaluate(DefaultOn(id, field, fallback), TemplateContext(s, after), s.world.host).Ok?
  {
    hide RunOne, Walk, Seed, SkipRest, Ids, AllIds, RunLaws.Kept, SeedLaws.Seeds, TemplateContext, DefaultOn;
    f, reached, broken := CutPoint(steps, 0, path, act, s, run);
    var after := Walk(steps, 0, path, act, true, s, run).0;
    var rest := AllIds(steps[f..]);
    SeedLaws.SeedSeeds(broken.outputs, steps[f]);
    SeedLaws.SkipRestSeeds(steps, f + 1, path, Seeded(broken, steps[f]));
    SeedLaws.SeedsCompose(broken.outputs, Seed(broken.outputs, steps[f]), after.outputs,
      Ids(steps[f]), AllIds(steps[f + 1..]));
    AllIdsFrom(steps, f);
    StepLaws.WalkKeeps(steps, 0, path, act, true, s, run);
    ScopeKept(run, after);
    forall id: string, field: string, fallback: Literal | id in rest
      ensures Evaluate(DefaultOn(id, field, fallback), TemplateContext(s, after), s.world.host).Ok?
    {
      SeededIsPublished(broken.outputs, after.outputs, rest, id);
      DefaultNeedsThePublication(id, field, fallback, s, after);
    }
  }

  lemma AllIdsFrom(steps: seq<Step>, f: nat)
    requires f < |steps|
    ensures AllIds(steps[f..]) == Ids(steps[f]) + AllIds(steps[f + 1..])
  {
    hide Ids;
    assert steps[f..][1..] == steps[f + 1..];
  }

  lemma ScopeKept(run: Run, after: Run)
    requires RunLaws.Kept(run, after, 1)
    ensures after.scope == run.scope
  {
  }

  lemma SeededIsPublished(before: Table<Table<Value>>, after: Table<Table<Value>>, ids: set<string>, id: string)
    requires SeedLaws.Seeds(before, after, ids) && id in ids
    ensures Find(after, id).Some?
  {
  }
}
