/**
 * Strict undefined, over whole trees: the first operand in evaluation order that fails or is undefined decides
 * the answer, and an undefined value in a strict position, however deep, is never swallowed on the way up.
 */
module ExprStrict {
  import opened Common
  import opened ExprSyntax
  import opened ExprValues
  import opened ExprEval

  predicate IsDefault(e: Expr) {
    e.Filter? && e.filter == "default"
  }

  function Flat(entries: seq<(Expr, Expr)>): (ds: seq<Expr>)
    ensures |ds| == 2 * |entries|
    ensures forall k :: 0 <= k < |ds| ==> ds[k] == if k % 2 == 0 then entries[k / 2].0 else entries[k / 2].1
  {
    if entries == [] then [] else [entries[0].0, entries[0].1] + Flat(entries[1..])
  }

  /** The operands a node always evaluates and uses, in the order it does. */
  function Demands(e: Expr): (ds: seq<Expr>)
    ensures forall k :: 0 <= k < |ds| ==> ds[k] < e
  {
    match e
    case Attribute(t, _) => [t]
    case Index(t, i) => [i, t]
    case Filter(t, _, args) => if IsDefault(e) then args else [t] + args
    case Unary(_, x) => [x]
    case Binary(_, l, r) => [l, r]
    case Compare(_, l, r) => [l, r]
    case Logical(_, l, _) => [l]
    case Conditional(_, c, _) => [c]
    case ListExpr(items) => items
    case DictExpr(entries) => Flat(entries)
    case _ => []
  }

  /** The operands before the `k`-th are fit for use. */
  ghost predicate UsedUpTo(ds: seq<Expr>, k: nat, ctx: Context, host: Host)
    requires k <= |ds|
  {
    forall j :: 0 <= j < k ==> UseOf(ds[j], ctx, host).Ok?
  }

  lemma {:induction false} ItemsStop(items: seq<Expr>, k: nat, ctx: Context, host: Host)
    requires k < |items| && UsedUpTo(items, k, ctx, host) && UseOf(items[k], ctx, host).Err?
    ensures EvaluateAll(items, ctx, host) == Err(UseOf(items[k], ctx, host).error)
  {
    hide UseOf;
    if k > 0 {
      assert UseOf(items[0], ctx, host).Ok?;
      forall j | 0 <= j < k - 1 ensures UseOf(items[1..][j], ctx, host).Ok? {
        assert items[1..][j] == items[j + 1];
      }
      ItemsStop(items[1..], k - 1, ctx, host);
    }
  }

  lemma {:induction false} EntriesStop(entries: seq<(Expr, Expr)>, out: Tables.Table<Value>, k: nat, ctx: Context,
                                       host: Host)
    requires k < 2 * |entries| && UsedUpTo(Flat(entries), k, ctx, host)
    requires UseOf(Flat(entries)[k], ctx, host).Err?
    ensures EvaluateEntries(entries, out, ctx, host) == Err(UseOf(Flat(entries)[k], ctx, host).error)
    decreases |entries|
  {
    hide UseOf;
    var ds := Flat(entries);
    assert ds == [entries[0].0, entries[0].1] + Flat(entries[1..]);
    if k > 0 {
      assert UseOf(ds[0], ctx, host).Ok?;
    }
    if k > 1 {
      assert UseOf(ds[1], ctx, host).Ok?;
      forall j | 0 <= j < k - 2 ensures UseOf(Flat(entries[1..])[j], ctx, host).Ok? {
        assert Flat(entries[1..])[j] == ds[j + 2];
      }
      var entry := EvaluateEntry(entries[0], ctx, host).value;
      EntriesStop(entries[1..], Tables.Put(out, entry.0, entry.1), k - 2, ctx, host);
    }
  }

  /** The first demanded operand that is undefined or fails decides: the one with that very error, or this one. */
  lemma FirstFailureDecides(e: Expr, k: nat, ctx: Context, host: Host)
    requires k < |Demands(e)| && UsedUpTo(Demands(e), k, ctx, host)
    requires IsDefault(e) ==> Evaluate(e.target, ctx, host).Ok?
    ensures Evaluate(Demands(e)[k], ctx, host) == Ok(Undefined) ==> Evaluate(e, ctx, host) == Err(UndefinedVariable)
    ensures Evaluate(Demands(e)[k], ctx, host).Err? ==> Evaluate(e, ctx, host) == Evaluate(Demands(e)[k], ctx, host)
  {
    UseExactly(Demands(e)[k], ctx, host);
    if UseOf(Demands(e)[k], ctx, host).Err? {
      UseDecides(e, k, ctx, host);
    }
  }

  lemma UseExactly(d: Expr, ctx: Context, host: Host)
    ensures UseOf(d, ctx, host).Ok? <==> Evaluate(d, ctx, host).Ok? && Evaluate(d, ctx, host).value != Undefined
    ensures Evaluate(d, ctx, host) == Ok(Undefined) ==> UseOf(d, ctx, host) == Err(UndefinedVariable)
    ensures Evaluate(d, ctx, host).Err? ==> UseOf(d, ctx, host) == Evaluate(d, ctx, host)
  {
    hide Evaluate;
  }

  lemma UseDecides(e: Expr, k: nat, ctx: Context, host: Host)
    requires k < |Demands(e)| && UsedUpTo(Demands(e), k, ctx, host)
    requires IsDefault(e) ==> Evaluate(e.target, ctx, host).Ok?
    requires UseOf(Demands(e)[k], ctx, host).Err?
    ensures Evaluate(e, ctx, host) == Err(UseOf(Demands(e)[k], ctx, host).error)
  {
    hide UseOf, EvaluateAll, EvaluateEntries, Flat;
    if e.ListExpr? {
      ItemsStop(e.items, k, ctx, host);
    } else if e.DictExpr? {
      EntriesStop(e.entries, [], k, ctx, host);
    } else if e.Filter? {
      FilterStops(e, k, ctx, host);
    } else if k > 0 {
      assert UseOf(Demands(e)[0], ctx, host).Ok?;
    }
  }

  lemma FilterStops(e: Expr, k: nat, ctx: Context, host: Host)
    requires e.Filter? && k < |Demands(e)| && UsedUpTo(Demands(e), k, ctx, host)
    requires IsDefault(e) ==> Evaluate(e.target, ctx, host).Ok?
    requires UseOf(Demands(e)[k], ctx, host).Err?
    ensures Evaluate(e, ctx, host) == Err(UseOf(Demands(e)[k], ctx, host).error)
  {
    hide EvaluateAll;
    if IsDefault(e) {
      ItemsStop(e.args, k, ctx, host);
    } else if k > 0 {
      assert UseOf(Demands(e)[0], ctx, host).Ok?;
      forall j | 0 <= j < k - 1 ensures UseOf(e.args[j], ctx, host).Ok? {
        assert e.args[j] == Demands(e)[j + 1];
      }
      ItemsStop(e.args, k - 1, ctx, host);
    }
  }

  /** The first operand that cannot be used, if there is one. */
  lemma {:induction false} FirstUnusable(ds: seq<Expr>, k: nat, ctx: Context, host: Host) returns (n: nat)
    requires k < |ds| && UseOf(ds[k], ctx, host).Err?
    ensures n <= k && UsedUpTo(ds, n, ctx, host) && UseOf(ds[n], ctx, host).Err?
  {
    hide UseOf;
    n := 0;
    while UseOf(ds[n], ctx, host).Ok?
      invariant n <= k && UsedUpTo(ds, n, ctx, host)
      decreases k - n
    {
      n := n + 1;
    }
  }

  /** A node with a value has had the value of every operand it demands. */
  lemma DemandsAreMet(e: Expr, k: nat, ctx: Context, host: Host)
    requires Evaluate(e, ctx, host).Ok? && k < |Demands(e)|
    ensures UseOf(Demands(e)[k], ctx, host).Ok?
  {
    hide UseOf;
    if UseOf(Demands(e)[k], ctx, host).Err? {
      var n := FirstUnusable(Demands(e), k, ctx, host);
      DefaultTarget(e, ctx, host);
      UseDecides(e, n, ctx, host);
    }
  }

  lemma DefaultTarget(e: Expr, ctx: Context, host: Host)
    requires Evaluate(e, ctx, host).Ok?
    ensures IsDefault(e) ==> Evaluate(e.target, ctx, host).Ok?
  {
  }

  /** `x` stands in a strict position of `e`: a chain of demanded operands leads to it. */
  ghost predicate Strictly(e: Expr, x: Expr)
    decreases e
  {
    exists k :: 0 <= k < |Demands(e)| && (Demands(e)[k] == x || Strictly(Demands(e)[k], x))
  }

  /** No value comes out of a tree with an undefined value, or a failure, in a strict position. */
  lemma {:induction false} UndefinedNeverHides(e: Expr, x: Expr, ctx: Context, host: Host)
    requires Strictly(e, x)
    requires Evaluate(x, ctx, host).Err? || Evaluate(x, ctx, host) == Ok(Undefined)
    ensures Evaluate(e, ctx, host).Err?
    decreases e
  {
    hide Evaluate, UseOf;
    var k :| 0 <= k < |Demands(e)| && (Demands(e)[k] == x || Strictly(Demands(e)[k], x));
    UseExactly(Demands(e)[k], ctx, host);
    if Demands(e)[k] != x {
      UndefinedNeverHides(Demands(e)[k], x, ctx, host);
    }
    if Evaluate(e, ctx, host).Ok? {
      DemandsAreMet(e, k, ctx, host);
    }
  }
}
