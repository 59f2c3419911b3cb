/** Chained comparisons: the desugaring into `and` means what Python's chain means. */
module ExprChain {
  import opened Common
  import opened ExprSyntax
  import opened ExprValues
  import opened ExprEval
  import opened ExprGrammar

  /** Python's chain: each operand is evaluated once, left to right, up to the first false link. */
  function PythonChain(left: Value, links: seq<Link>, ctx: Context, host: Host): Answer
    requires links != []
    decreases |links|
  {
    var right :- UseOf(links[0].1, ctx, host);
    var holds :- CompareOf(links[0].0, left, right, host);
    if !holds then Ok(Bool(false))
    else if |links| == 1 then Ok(Bool(true))
    else PythonChain(right, links[1..], ctx, host)
  }

  /** What is left to decide once the links behind `acc` have been. */
  function Remaining(acc: Answer, left: Answer, links: seq<Link>, ctx: Context, host: Host): Answer {
    if acc != Ok(Bool(true)) || links == [] then acc
    else if left.Err? then left
    else PythonChain(left.value, links, ctx, host)
  }

  lemma {:induction false} ChainFromMeans(acc: Expr, left: Expr, links: seq<Link>, ctx: Context, host: Host)
    requires Evaluate(acc, ctx, host).Ok? ==> Evaluate(acc, ctx, host).value.Bool?
    requires Evaluate(acc, ctx, host) == Ok(Bool(true)) ==> UseOf(left, ctx, host).Ok?
    ensures Evaluate(ChainFrom(acc, left, links), ctx, host) ==
            Remaining(Evaluate(acc, ctx, host), UseOf(left, ctx, host), links, ctx, host)
    decreases |links|
  {
    if links != [] {
      var link := links[0];
      var next := Compare(link.0, left, link.1);
      var both := Logical(BAnd, acc, next);
      assert UseOf(acc, ctx, host) == Evaluate(acc, ctx, host);
      assert Evaluate(both, ctx, host) ==
             if Evaluate(acc, ctx, host) == Ok(Bool(true)) then Evaluate(next, ctx, host)
             else Evaluate(acc, ctx, host);
      ChainFromMeans(both, link.1, links[1..], ctx, host);
    }
  }

  /** `a op1 b op2 c …`, as the parser builds it, evaluates to Python's answer. */
  lemma ChainIsPythonChain(first: Expr, links: seq<Link>, ctx: Context, host: Host)
    requires links != []
    ensures Evaluate(Chain(first, links), ctx, host) ==
            if UseOf(first, ctx, host).Err? then UseOf(first, ctx, host)
            else PythonChain(UseOf(first, ctx, host).value, links, ctx, host)
  {
    ChainFromMeans(Compare(links[0].0, first, links[0].1), links[0].1, links[1..], ctx, host);
  }
}
